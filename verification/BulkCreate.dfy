/** Creating accounts in bulk. Every builder's mutator checks its own builder, describes its row and calls the next
    one; the last performs the single insert, and completion is recorded while the calls return. Hooks wrap the
    mutators and pass everything through. */
module BulkCreate {
  import opened Basics
  import opened AccountEntity
  import opened Nodes
  import opened AccountCreate
  import opened AccountSpec

  datatype DriverError = DriverError(code: int, constraint: bool)

  datatype SaveError = Configured(reason: string) | Invalid(builder: nat, problem: CreateError)
    | Constraint(e: DriverError) | Driver(e: DriverError)

  function Wrap(e: DriverError): SaveError {
    if e.constraint then Constraint(e) else Driver(e)
  }

  /** What the database makes of the batch: an id for each row, if it reports one, or an error. */
  type Answer = Result<nat -> Option<int>, DriverError>

  class AccountBuilder {
    const mutation: AccountMutation
    const hooks: nat

    constructor (mutation: AccountMutation, hooks: nat)
      ensures this.mutation == mutation && this.hooks == hooks
    {
      this.mutation, this.hooks := mutation, hooks;
    }
  }

  datatype Mutator = Core(builder: nat) | Hook(builder: nat, hook: nat, next: Mutator)

  datatype Event = Enter(builder: nat, hook: nat) | Exit(builder: nat, hook: nat) | Reject(builder: nat)
    | Fill(builder: nat) | Insert

  // ======== what a run should do, as values ========

  /** The mutator of builder i from its hook h inwards. */
  function Wrapped(hooks: seq<nat>, i: nat, h: nat): Mutator
    requires i < |hooks| && h <= hooks[i]
    decreases hooks[i] - h
  {
    if h == hooks[i] then Core(i) else Hook(i, h, Wrapped(hooks, i, h + 1))
  }

  /** What the check of each builder complains about. */
  function Problems(rt: Runtime, ds: seq<Draft>): (problems: seq<Option<CreateError>>)
    ensures |problems| == |ds|
    ensures forall i :: 0 <= i < |ds| ==> problems[i] == FirstComplaint(rt, ds[i], 0)
  {
    seq(|ds|, i requires 0 <= i < |ds| => FirstComplaint(rt, ds[i], 0))
  }

  /** The first builder from i on whose check fails, or the number of builders. */
  function FirstInvalid(problems: seq<Option<CreateError>>, i: nat): (k: nat)
    requires i <= |problems|
    ensures i <= k <= |problems|
    ensures forall j :: i <= j < k ==> problems[j].None?
    ensures k < |problems| ==> problems[k].Some?
    decreases |problems| - i
  {
    if i == |problems| || problems[i].Some? then i else FirstInvalid(problems, i + 1)
  }

  /** The events of a run from hook h of builder i on. */
  function Trace(problems: seq<Option<CreateError>>, hooks: seq<nat>, i: nat, h: nat): seq<Event>
    requires i < |problems| == |hooks| && h <= hooks[i]
    decreases |problems| - i, hooks[i] - h
  {
    if h < hooks[i] then [Enter(i, h)] + Trace(problems, hooks, i, h + 1) + [Exit(i, h)]
    else if problems[i].Some? then [Reject(i)]
    else [Fill(i)] + (if i + 1 < |problems| then Trace(problems, hooks, i + 1, 0) else [Insert])
  }

  /** How a run from builder i on ends. */
  function Outcome(problems: seq<Option<CreateError>>, i: nat, answer: Answer): Option<SaveError>
    requires i <= |problems|
  {
    var k := FirstInvalid(problems, i);
    if k < |problems| then Some(Invalid(k, problems[k].value))
    else if answer.Err? then Some(Wrap(answer.error))
    else None
  }

  // ======== the run ========

  ghost predicate Describes(rt: Runtime, d: Draft, node: Account, spec: CreateSpec)
    reads node`row, spec`fields, spec`edges
  {
    && spec.fields == SpecFields(d, |SPECIFIED|) && spec.edges == SpecEdges(d, rt)
    && node.row.(id := 0) == CreatedRow(d)
  }

  function Assigned(answer: Answer, i: nat): int {
    if answer.Ok? && answer.value(i).Some? then answer.value(i).value else 0
  }

  ghost function DraftsOf(builders: seq<AccountBuilder>): (ds: seq<Draft>)
    reads (set b | b in builders :: b.mutation)`draft
    ensures |ds| == |builders| && forall j :: 0 <= j < |builders| ==> ds[j] == builders[j].mutation.draft
  {
    if builders == [] then []
    else
      var n := |builders| - 1;
      DraftsOf(builders[..n]) + [builders[n].mutation.draft]
  }

  class BulkRun {
    const rt: Runtime
    const builders: seq<AccountBuilder>
    const answer: Answer
    var specs: seq<CreateSpec?>
    var nodes: seq<Account?>
    var mutators: seq<Mutator>
    var inserts: seq<seq<CreateSpec?>>
    var trace: seq<Event>

    constructor (rt: Runtime, builders: seq<AccountBuilder>, answer: Answer)
      ensures this.rt == rt && this.builders == builders && this.answer == answer
      ensures specs == seq(|builders|, i => null) && nodes == seq(|builders|, i => null)
      ensures mutators == [] && inserts == [] && trace == []
    {
      this.rt, this.builders, this.answer := rt, builders, answer;
      specs, nodes := seq(|builders|, i => null), seq(|builders|, i => null);
      mutators, inserts, trace := [], [], [];
    }

    ghost function Hooks(): (hooks: seq<nat>)
      ensures |hooks| == |builders|
    {
      seq(|builders|, i requires 0 <= i < |builders| => builders[i].hooks)
    }

    ghost function Mutations(): set<AccountMutation>
    {
      set b | b in builders :: b.mutation
    }

    ghost predicate Loaded(ds: seq<Draft>)
      reads this`mutators, Mutations()`draft
    {
      && |ds| == |mutators| == |builders|
      && (forall j :: 0 <= j < |builders| ==> builders[j].mutation.draft == ds[j])
      && (forall j :: 0 <= j < |builders| ==> mutators[j] == Wrapped(Hooks(), j, 0))
    }

    /** The builders' mutations hold these drafts, and every builder has its mutator. */
    ghost predicate Ready(ds: seq<Draft>)
      reads this`specs, this`nodes, this`mutators, Mutations()`draft
    {
      |ds| == |specs| == |nodes| == |mutators| == |builders| && Loaded(ds)
    }

    /** The rows of the first k builders are described, each by objects of its own. */
    ghost predicate Filled(ds: seq<Draft>, k: nat)
      requires k <= |ds| == |specs| == |nodes|
      reads this`nodes, this`specs, nodes`row, specs`fields, specs`edges
    {
      && (forall j :: 0 <= j < k ==> nodes[j] != null && specs[j] != null && Describes(rt, ds[j], nodes[j], specs[j]))
      && (forall j, l :: 0 <= j < l < k ==> nodes[j] != nodes[l] && specs[j] != specs[l])
    }

    /** The driver reported an id, or none, for every spec. */
    ghost predicate Reported()
      reads this`specs, specs`id
    {
      answer.Ok? && forall j :: 0 <= j < |specs| ==> specs[j] != null && specs[j].id == answer.value(j)
    }

    /** The nodes from i on have the ids the database assigned. */
    ghost predicate Numbered(i: nat)
      reads this`nodes, nodes`row
    {
      forall j :: i <= j < |nodes| ==> nodes[j] != null && nodes[j].row.id == Assigned(answer, j)
    }

    /** The mutations from i on are done, each pointing to its node; a mutation shared by several builders points
        to the node of the first of them. */
    ghost predicate Marked(i: nat)
      requires |nodes| == |builders|
      reads this`nodes, Mutations()`id, Mutations()`done
    {
      && (forall j :: i <= j < |builders| ==> builders[j].mutation.done)
      && (forall j :: i <= j < |builders| && (forall l :: i <= l < j ==> builders[l].mutation != builders[j].mutation)
            ==> builders[j].mutation.id == nodes[j])
    }

    /** The batch insert: the driver is called with all specs, and on success reports ids. */
    method BatchCreate() returns (err: Option<SaveError>)
      requires forall j :: 0 <= j < |specs| ==> specs[j] != null
      requires forall j, k :: 0 <= j < k < |specs| ==> specs[j] != specs[k]
      modifies this`inserts, this`trace, specs`id
      ensures inserts == old(inserts) + [specs] && trace == old(trace) + [Insert]
      ensures forall j :: 0 <= j < |specs| ==> specs[j] != null
      ensures answer.Err? ==> err == Some(Wrap(answer.error))
      ensures answer.Ok? ==> err == None && forall j :: 0 <= j < |specs| ==> specs[j].id == answer.value(j)
    {
      inserts, trace := inserts + [specs], trace + [Insert];
      if answer.Err? {
        return Some(Wrap(answer.error));
      }
      for i := 0 to |specs|
        invariant inserts == old(inserts) + [specs] && trace == old(trace) + [Insert]
        invariant forall j :: 0 <= j < i ==> specs[j].id == answer.value(j)
      {
        specs[i].id := answer.value(i);
      }
      return None;
    }

    // ---- the steps of one mutator ----

    method FillRow(i: nat, mutation: AccountMutation, ghost ds: seq<Draft>)
      requires Ready(ds) && i < |builders| && Filled(ds, i) && mutation == builders[i].mutation
      modifies this`specs, this`nodes, this`trace
      ensures Ready(ds) && Filled(ds, i + 1) && trace == old(trace) + [Fill(i)]
      ensures fresh(nodes[i]) && fresh(specs[i]) && nodes[i].row.id == 0
      ensures specs == old(specs)[i := specs[i]] && nodes == old(nodes)[i := nodes[i]]
    {
      hide CreatedRow, SpecFields, SpecEdges, Wrapped;
      var node, spec := Describe(builders[i].mutation, rt);
      CreatedWithoutID(ds[i]);
      nodes, specs := nodes[i := node], specs[i := spec];
      trace := trace + [Fill(i)];
    }

    method Number(i: nat, node: Account, ghost ds: seq<Draft>)
      requires |ds| == |nodes| == |specs| && i < |nodes| && Reported()
      requires Filled(ds, |ds|) && Numbered(i + 1) && nodes[i] == node && node.row.id == 0
      modifies node`row
      ensures Filled(ds, |ds|) && Numbered(i)
    {
      hide CreatedRow, SpecFields, SpecEdges;
      if specs[i].id.Some? {
        node.row := node.row.(id := specs[i].id.value);
      }
    }

    method Mark(i: nat, mutation: AccountMutation, node: Account)
      requires |nodes| == |builders| && i < |builders| && mutation == builders[i].mutation && nodes[i] == node
      requires Marked(i + 1)
      modifies mutation`id, mutation`done
      ensures Marked(i)
    {
      mutation.id := node;
      mutation.done := true;
    }

    // ---- the chain ----

    method Mutate(m: Mutator, mutation: AccountMutation, ghost ds: seq<Draft>, ghost i: nat, ghost h: nat)
      returns (value: Account?, err: Option<SaveError>)
      requires Ready(ds) && i < |builders| && Filled(ds, i) && mutation == builders[i].mutation
      requires h <= Hooks()[i] && m == Wrapped(Hooks(), i, h)
      modifies this`specs, this`nodes, this`inserts, this`trace, specs`id, Mutations()`id, Mutations()`done
      ensures Ready(ds)
      ensures forall j :: 0 <= j < i ==> specs[j] == old(specs)[j] && nodes[j] == old(nodes)[j]
      ensures Filled(ds, FirstInvalid(Problems(rt, ds), i))
      ensures trace == old(trace) + Trace(Problems(rt, ds), Hooks(), i, h)
      ensures inserts == old(inserts) + (if FirstInvalid(Problems(rt, ds), i) == |ds| then [specs] else [])
      ensures err == Outcome(Problems(rt, ds), i, answer)
      ensures err.Some? ==> value == null && forall m :: m in Mutations() ==> m.id == old(m.id) && m.done == old(m.done)
      ensures err.None? ==> value == nodes[i] && Reported() && Numbered(i) && Marked(i)
      decreases |builders| - i, 1, m
    {
      hide FirstInvalid, Filled, Reported, Numbered, Marked, Outcome, Problems, Mutations, Trace, Wrapped, Loaded;
      HookSteps(Problems(rt, ds), Hooks(), i, h);
      match m
      case Core(b) =>
        value, err := RunCore(b, mutation, ds);
      case Hook(b, k, next) =>
        trace := trace + [Enter(b, k)];
        value, err := Mutate(next, mutation, ds, i, h + 1);
        trace := trace + [Exit(b, k)];
    }

    method RunCore(i: nat, mutation: AccountMutation, ghost ds: seq<Draft>)
      returns (value: Account?, err: Option<SaveError>)
      requires Ready(ds) && i < |builders| && Filled(ds, i) && mutation == builders[i].mutation
      modifies this`specs, this`nodes, this`inserts, this`trace, specs`id, Mutations()`id, Mutations()`done
      ensures Ready(ds)
      ensures forall j :: 0 <= j < i ==> specs[j] == old(specs)[j] && nodes[j] == old(nodes)[j]
      ensures Filled(ds, FirstInvalid(Problems(rt, ds), i))
      ensures trace == old(trace) + Trace(Problems(rt, ds), Hooks(), i, Hooks()[i])
      ensures inserts == old(inserts) + (if FirstInvalid(Problems(rt, ds), i) == |ds| then [specs] else [])
      ensures err == Outcome(Problems(rt, ds), i, answer)
      ensures err.Some? ==> value == null && forall m :: m in Mutations() ==> m.id == old(m.id) && m.done == old(m.done)
      ensures err.None? ==> value == nodes[i] && Reported() && Numbered(i) && Marked(i)
      decreases |builders| - i, 0, 2
    {
      hide Filled, Reported, Numbered, Marked, Wrapped, FirstInvalid, Outcome, Trace;
      ghost var problems := Problems(rt, ds);
      CoreSteps(problems, Hooks(), i, answer);
      var problem := CheckBuilder(i, ds);
      if problem.Some? {
        trace := trace + [Reject(i)];
        return null, Some(Invalid(i, problem.value));
      }
      value, err := FillAndProceed(i, mutation, ds);
    }

    method FillAndProceed(i: nat, mutation: AccountMutation, ghost ds: seq<Draft>)
      returns (value: Account?, err: Option<SaveError>)
      requires Ready(ds) && i < |builders| && Filled(ds, i) && mutation == builders[i].mutation
      requires Problems(rt, ds)[i].None?
      modifies this`specs, this`nodes, this`inserts, this`trace, specs`id, Mutations()`id, Mutations()`done
      ensures Ready(ds)
      ensures forall j :: 0 <= j < i ==> specs[j] == old(specs)[j] && nodes[j] == old(nodes)[j]
      ensures Filled(ds, FirstInvalid(Problems(rt, ds), i))
      ensures trace == old(trace) + Trace(Problems(rt, ds), Hooks(), i, Hooks()[i])
      ensures inserts == old(inserts) + (if FirstInvalid(Problems(rt, ds), i) == |ds| then [specs] else [])
      ensures err == Outcome(Problems(rt, ds), i, answer)
      ensures err.Some? ==> value == null && forall m :: m in Mutations() ==> m.id == old(m.id) && m.done == old(m.done)
      ensures err.None? ==> value == nodes[i] && Reported() && Numbered(i) && Marked(i)
      decreases |builders| - i, 0, 1
    {
      hide Filled, Reported, Numbered, Marked, Loaded, FirstInvalid, Outcome, Trace, Problems;
      value, err := FillFirst(i, mutation, ds);
      if err.Some? {
        value := null;
      } else {
        NoErrorMeansAll(Problems(rt, ds), i, answer);
        Finish(i, mutation, value, ds);
      }
    }

    method FillFirst(i: nat, mutation: AccountMutation, ghost ds: seq<Draft>)
      returns (node: Account?, err: Option<SaveError>)
      requires Ready(ds) && i < |builders| && Filled(ds, i) && mutation == builders[i].mutation
      requires Problems(rt, ds)[i].None?
      modifies this`specs, this`nodes, this`inserts, this`trace, specs`id, Mutations()`id, Mutations()`done
      ensures Ready(ds)
      ensures forall j :: 0 <= j < i ==> specs[j] == old(specs)[j] && nodes[j] == old(nodes)[j]
      ensures Filled(ds, FirstInvalid(Problems(rt, ds), i))
      ensures trace == old(trace) + Trace(Problems(rt, ds), Hooks(), i, Hooks()[i])
      ensures inserts == old(inserts) + (if FirstInvalid(Problems(rt, ds), i) == |ds| then [specs] else [])
      ensures err == Outcome(Problems(rt, ds), i, answer)
      ensures err.Some? ==> forall m :: m in Mutations() ==> m.id == old(m.id) && m.done == old(m.done)
      ensures node != null && node == nodes[i] && node.row.id == 0 && fresh(node)
      ensures err.None? ==> Reported() && Numbered(i + 1) && Marked(i + 1)
      decreases |builders| - i, 0, 0
    {
      hide Filled, Reported, Numbered, Marked, Loaded, FirstInvalid, Outcome, Trace, Problems;
      ghost var before := trace;
      CoreSteps(Problems(rt, ds), Hooks(), i, answer);
      FillRow(i, mutation, ds);
      node := nodes[i];
      err := Proceed(i, ds);
      FillLeads(before, i, if i + 1 < |ds| then Trace(Problems(rt, ds), Hooks(), i + 1, 0) else [Insert]);
    }

    method Finish(i: nat, mutation: AccountMutation, node: Account, ghost ds: seq<Draft>)
      requires Ready(ds) && i < |builders| && mutation == builders[i].mutation && Filled(ds, |ds|) && Reported()
      requires Numbered(i + 1) && Marked(i + 1) && nodes[i] == node && node.row.id == 0
      modifies node`row, mutation`id, mutation`done
      ensures Ready(ds) && Filled(ds, |ds|) && Reported() && Numbered(i) && Marked(i)
    {
      hide Filled, Reported, Numbered, Wrapped;
      Number(i, node, ds);
      Mark(i, mutation, node);
    }

    method CheckBuilder(i: nat, ghost ds: seq<Draft>) returns (problem: Option<CreateError>)
      requires Ready(ds) && i < |builders|
      ensures problem == Problems(rt, ds)[i]
    {
      hide FirstComplaint, Wrapped;
      problem := Check(builders[i].mutation, rt);
    }

    /** The next mutator, or the insert if there is none. */
    method Proceed(i: nat, ghost ds: seq<Draft>) returns (err: Option<SaveError>)
      requires Ready(ds) && i < |builders| && Filled(ds, i + 1)
      modifies this`specs, this`nodes, this`inserts, this`trace, specs`id, Mutations()`id, Mutations()`done
      ensures Ready(ds)
      ensures forall j :: 0 <= j <= i ==> specs[j] == old(specs)[j] && nodes[j] == old(nodes)[j]
      ensures Filled(ds, FirstInvalid(Problems(rt, ds), i + 1))
      ensures trace == old(trace) + (if i + 1 < |ds| then Trace(Problems(rt, ds), Hooks(), i + 1, 0) else [Insert])
      ensures inserts == old(inserts) + (if FirstInvalid(Problems(rt, ds), i + 1) == |ds| then [specs] else [])
      ensures err == Outcome(Problems(rt, ds), i + 1, answer)
      ensures err.Some? ==> forall m :: m in Mutations() ==> m.id == old(m.id) && m.done == old(m.done)
      ensures err.None? ==> Reported() && Numbered(i + 1) && Marked(i + 1)
      decreases |builders| - i - 1, 2
    {
      hide Wrapped, Describes, Trace;
      if i + 1 < |mutators| {
        var _, e := Mutate(mutators[i + 1], builders[i + 1].mutation, ds, i + 1, 0);
        err := e;
      } else {
        err := BatchCreate();
      }
    }

    // ---- setting up ----

    /** The first builder that uses builder i's mutation. */
    ghost function FirstUse(i: nat): (k: nat)
      requires i < |builders|
      ensures k <= i && builders[k].mutation == builders[i].mutation
      ensures forall j :: 0 <= j < k ==> builders[j].mutation != builders[i].mutation
    {
      FirstUseFrom(i, 0)
    }

    ghost function FirstUseFrom(i: nat, k: nat): (r: nat)
      requires k <= i < |builders| && forall j :: 0 <= j < k ==> builders[j].mutation != builders[i].mutation
      ensures r <= i && builders[r].mutation == builders[i].mutation
      ensures forall j :: 0 <= j < r ==> builders[j].mutation != builders[i].mutation
      decreases i - k
    {
      if builders[k].mutation == builders[i].mutation then k else FirstUseFrom(i, k + 1)
    }

    ghost predicate Prepared(olds: seq<Draft>, i: nat)
      requires |olds| == |builders|
      reads this`mutators, Mutations()`draft
    {
      && (forall j :: 0 <= j < |builders| ==>
            builders[j].mutation.draft == if FirstUse(j) < i then Defaulted(rt, FirstUse(j), olds[j], 0).0 else olds[j])
      && |mutators| == i <= |builders| && (forall j :: 0 <= j < i ==> mutators[j] == Wrapped(Hooks(), j, 0))
    }

    /** Defaults for every builder, whose error is ignored, and its mutator with the hooks around it, hook 0
        outermost. */
    method Prepare(ghost olds: seq<Draft>)
      requires mutators == [] && |olds| == |builders|
      requires forall j :: 0 <= j < |builders| ==> builders[j].mutation.draft == olds[j]
      modifies this`mutators, Mutations()`draft
      ensures Prepared(olds, |builders|)
    {
      hide Prepared, SharedAgree;
      NothingPrepared(olds);
      for i := 0 to |builders|
        invariant Prepared(olds, i)
      {
        SetUp(i, olds);
      }
    }

    /** Builders that share a mutation started from the same draft. */
    ghost predicate SharedAgree(olds: seq<Draft>)
      requires |olds| == |builders|
    {
      forall j, l :: 0 <= j < l < |olds| && builders[j].mutation == builders[l].mutation ==> olds[j] == olds[l]
    }

    lemma {:induction false} NothingPrepared(olds: seq<Draft>)
      requires mutators == [] && |olds| == |builders|
      requires forall j :: 0 <= j < |builders| ==> builders[j].mutation.draft == olds[j]
      ensures Prepared(olds, 0) && SharedAgree(olds)
    {
      hide FirstUse, Defaulted, Wrapped;
    }

    method SetUp(i: nat, ghost olds: seq<Draft>)
      requires |olds| == |builders| && i < |builders| && Prepared(olds, i) && SharedAgree(olds)
      modifies this`mutators, Mutations()`draft
      ensures Prepared(olds, i + 1)
    {
      hide Defaulted, Wrapped, FirstUse, SharedAgree;
      DefaultBuilder(i, olds);
      var mut := WrapHooks(i);
      mutators := mutators + [mut];
    }

    method DefaultBuilder(i: nat, ghost olds: seq<Draft>)
      requires |olds| == |builders| && i < |builders| && Prepared(olds, i) && SharedAgree(olds)
      modifies Mutations()`draft
      ensures forall j :: 0 <= j < |builders| ==>
                builders[j].mutation.draft == if FirstUse(j) < i + 1 then Defaulted(rt, FirstUse(j), olds[j], 0).0
                  else olds[j]
    {
      hide Defaulted, Wrapped;
      ghost var k := FirstUse(i);
      assert forall j :: 0 <= j < |builders| && builders[j].mutation == builders[i].mutation ==> FirstUse(j) == k;
      DefaultsIdempotent(rt, k, i, olds[i], 0);
      var _ := Defaults(builders[i].mutation, rt, i);
    }

    method WrapHooks(i: nat) returns (mut: Mutator)
      requires i < |builders|
      ensures mut == Wrapped(Hooks(), i, 0)
    {
      mut := Core(i);
      for h := builders[i].hooks downto 0
        invariant mut == Wrapped(Hooks(), i, h)
      {
        mut := Hook(i, h, mut);
      }
    }

    ghost function Drafts(): (ds: seq<Draft>)
      reads Mutations()`draft
    {
      DraftsOf(builders)
    }

    /** Everything after the error of the bulk builder itself was looked at. */
    method Start(ghost olds: seq<Draft>) returns (err: Option<SaveError>)
      requires specs == seq(|builders|, i => null) && nodes == seq(|builders|, i => null)
      requires mutators == [] && inserts == [] && trace == []
      requires |olds| == |builders| && forall j :: 0 <= j < |builders| ==> builders[j].mutation.draft == olds[j]
      modifies this, Mutations()
      ensures |nodes| == |specs| == |builders|
      ensures forall j :: 0 <= j < |builders| ==>
                builders[j].mutation.draft == Defaulted(rt, FirstUse(j), olds[j], 0).0
      ensures builders == [] ==> err == None && inserts == [] && trace == []
      ensures builders != [] ==>
                && err == Outcome(Problems(rt, Drafts()), 0, answer)
                && trace == Trace(Problems(rt, Drafts()), Hooks(), 0, 0)
                && inserts == (if FirstInvalid(Problems(rt, Drafts()), 0) == |builders| then [specs] else [])
      ensures Filled(Drafts(), FirstInvalid(Problems(rt, Drafts()), 0))
      ensures err.Some? ==> forall m :: m in Mutations() ==> m.id == old(m.id) && m.done == old(m.done)
      ensures err.None? && builders != [] ==> Reported() && Numbered(0) && Marked(0)
    {
      hide Defaulted, Wrapped, FirstUse, Filled, Reported, Numbered, Marked, Problems, Outcome, FirstInvalid, Trace,
           DraftsOf;
      Prepare(olds);
      ghost var ds := Drafts();
      NothingFilled(ds);
      err := Launch(ds);
      assert Drafts() == ds;
    }

    method Launch(ghost ds: seq<Draft>) returns (err: Option<SaveError>)
      requires Ready(ds) && Filled(ds, 0)
      modifies this`specs, this`nodes, this`inserts, this`trace, specs`id, Mutations()`id, Mutations()`done
      ensures Ready(ds)
      ensures Filled(ds, FirstInvalid(Problems(rt, ds), 0))
      ensures builders == [] ==> err == None && inserts == old(inserts) && trace == old(trace)
      ensures builders != [] ==>
                && err == Outcome(Problems(rt, ds), 0, answer)
                && trace == old(trace) + Trace(Problems(rt, ds), Hooks(), 0, 0)
                && inserts == old(inserts) + (if FirstInvalid(Problems(rt, ds), 0) == |ds| then [specs] else [])
      ensures err.Some? ==> forall m :: m in Mutations() ==> m.id == old(m.id) && m.done == old(m.done)
      ensures err.None? && builders != [] ==> Reported() && Numbered(0) && Marked(0)
    {
      hide Filled, Reported, Numbered, Marked, Problems, Outcome, FirstInvalid, Trace;
      err := None;
      if |mutators| > 0 {
        var _, e := Mutate(mutators[0], builders[0].mutation, ds, 0, 0);
        err := e;
      } else {
        NoBuilders(Problems(rt, ds));
      }
    }

    lemma {:induction false} NothingFilled(ds: seq<Draft>)
      requires |ds| == |specs| == |nodes|
      ensures Filled(ds, 0)
    {
    }
  }

  lemma {:induction false} CreatedWithoutID(d: Draft)
    ensures CreatedRow(d).id == 0
  {
    hide NodeRow;
    NodeCell(d, |SPECIFIED|, Int64Column(ID));
  }

  lemma {:induction false} CoreSteps(problems: seq<Option<CreateError>>, hooks: seq<nat>, i: nat, answer: Answer)
    requires i < |problems| == |hooks|
    ensures problems[i].Some? ==>
              FirstInvalid(problems, i) == i && Outcome(problems, i, answer) == Some(Invalid(i, problems[i].value))
              && Trace(problems, hooks, i, hooks[i]) == [Reject(i)]
    ensures problems[i].None? ==>
              FirstInvalid(problems, i) == FirstInvalid(problems, i + 1)
              && Outcome(problems, i, answer) == Outcome(problems, i + 1, answer)
              && Trace(problems, hooks, i, hooks[i])
                 == [Fill(i)] + (if i + 1 < |problems| then Trace(problems, hooks, i + 1, 0) else [Insert])
  {
  }

  lemma {:induction false} HookSteps(problems: seq<Option<CreateError>>, hooks: seq<nat>, i: nat, h: nat)
    requires i < |problems| == |hooks| && h <= hooks[i]
    ensures h == hooks[i] ==> Wrapped(hooks, i, h) == Core(i)
    ensures h < hooks[i] ==>
              Wrapped(hooks, i, h) == Hook(i, h, Wrapped(hooks, i, h + 1))
              && Trace(problems, hooks, i, h) == [Enter(i, h)] + Trace(problems, hooks, i, h + 1) + [Exit(i, h)]
  {
  }

  lemma {:induction false} FillLeads(before: seq<Event>, i: nat, rest: seq<Event>)
    ensures before + [Fill(i)] + rest == before + ([Fill(i)] + rest)
  {
  }

  lemma {:induction false} NoErrorMeansAll(problems: seq<Option<CreateError>>, i: nat, answer: Answer)
    requires i <= |problems| && Outcome(problems, i, answer).None?
    ensures FirstInvalid(problems, i) == |problems| && answer.Ok?
  {
  }

  lemma {:induction false} NoBuilders(problems: seq<Option<CreateError>>)
    requires problems == []
    ensures FirstInvalid(problems, 0) == 0
  {
  }

  class AccountCreateBulk {
    var err: Option<SaveError>
    const builders: seq<AccountBuilder>

    constructor (builders: seq<AccountBuilder>, err: Option<SaveError>)
      ensures this.builders == builders && this.err == err
    {
      this.builders, this.err := builders, err;
    }

    ghost function Mutations(): set<AccountMutation> {
      set b | b in builders :: b.mutation
    }

    /** All or nothing. The run behind a call, absent when an earlier error is reported, tells what was inserted
        and in which order things happened. */
    method Save(rt: Runtime, answer: Answer)
      returns (nodes: seq<Account?>, failure: Option<SaveError>, ghost run: BulkRun?)
      modifies Mutations()
      ensures err.Some? ==>
                nodes == [] && failure == err && run == null && forall m :: m in Mutations() ==> unchanged(m)
      ensures err.None? ==>
                run != null && fresh(run) && run.builders == builders && run.rt == rt && run.answer == answer
      ensures err.None? ==>
                && |run.nodes| == |run.specs| == |builders|
                && (forall j :: 0 <= j < |builders| ==>
                      builders[j].mutation.draft
                      == Defaulted(rt, run.FirstUse(j), old(builders[j].mutation.draft), 0).0)
                && (if builders == [] then failure == None && nodes == [] && run.inserts == [] && run.trace == []
                    else
                      && failure == Outcome(Problems(rt, run.Drafts()), 0, answer)
                      && run.trace == Trace(Problems(rt, run.Drafts()), run.Hooks(), 0, 0)
                      && run.inserts
                         == (if FirstInvalid(Problems(rt, run.Drafts()), 0) == |builders| then [run.specs] else [])
                      && run.Filled(run.Drafts(), FirstInvalid(Problems(rt, run.Drafts()), 0))
                      && (failure.Some? ==> nodes == [])
                      && (failure.None? ==> nodes == run.nodes && run.Reported() && run.Numbered(0) && run.Marked(0)))
      ensures failure.Some? ==> forall m :: m in Mutations() ==> m.id == old(m.id) && m.done == old(m.done)
    {
      hide Defaulted, BulkRun.Filled, BulkRun.Reported, BulkRun.Numbered, BulkRun.Marked, Problems, Outcome,
           FirstInvalid, Trace;
      if err.Some? {
        return [], err, null;
      }
      ghost var olds := DraftsOf(builders);
      var work := new BulkRun(rt, builders, answer);
      run := work;
      failure := work.Start(olds);
      if failure.Some? {
        return [], failure, work;
      }
      nodes := work.nodes;
    }
  }
}
