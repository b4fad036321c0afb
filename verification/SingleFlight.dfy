/** Worktree creation by single flight: a call for a key that is being created joins the creation.
    A step is one lock scope or one operation on the once-cell of a creation. */
module SingleFlight {
  import opened Wrappers

  /** What a creation returns: the path of the worktree, or why there is none */
  datatype Outcome = Created(path: string) | Refused(why: string)

  /** `owner` and `key` say which call put the cell into the map; the program only sees `value` */
  datatype Cell = Cell(key: string, owner: nat, value: Option<Outcome>)

  datatype Stage =
    | Called
    | Waiting(cell: nat)
    | Creating(cell: nat)
    | Setting(cell: nat, result: Outcome)
    | Removing(cell: nat, result: Outcome)
    | Returned(cell: nat, result: Outcome)

  datatype Call = Call(key: string, stage: Stage)

  datatype State = State(adding: map<string, nat>, cells: seq<Cell>, calls: seq<Call>)

  datatype Step =
    | Begin(key: string)
    | Enter(call: nat)
    | Wake(call: nat)
    | Finish(call: nat, outcome: Outcome)
    | Publish(call: nat)
    | Remove(call: nat)

  const INITIAL := State(map[], [], [])

  // ----- the steps

  function Move(s: State, t: nat, stage: Stage): State
    requires t < |s.calls|
  {
    s.(calls := s.calls[t := s.calls[t].(stage := stage)])
  }

  /** A once-cell keeps its first value */
  function SetCell(cell: Cell, result: Outcome): Cell {
    if cell.value.None? then cell.(value := Some(result)) else cell
  }

  function EnterCall(s: State, t: nat): State
    requires t < |s.calls|
  {
    var key := s.calls[t].key;
    if key in s.adding then Move(s, t, Waiting(s.adding[key]))
    else Move(s.(adding := s.adding[key := |s.cells|], cells := s.cells + [Cell(key, t, None)]), t, Creating(|s.cells|))
  }

  function PublishCall(s: State, t: nat, c: nat, result: Outcome): State
    requires t < |s.calls|
  {
    if c < |s.cells| then Move(s.(cells := s.cells[c := SetCell(s.cells[c], result)]), t, Removing(c, result)) else s
  }

  /** A step that is not the call's next one changes nothing */
  function StepCall(s: State, t: nat, step: Step): State
    requires t < |s.calls|
  {
    match s.calls[t].stage
    case Called => if step.Enter? then EnterCall(s, t) else s
    case Waiting(c) =>
      if step.Wake? && c < |s.cells| && s.cells[c].value.Some?
      then Move(s, t, Returned(c, s.cells[c].value.value))
      else s
    case Creating(c) => if step.Finish? then Move(s, t, Setting(c, step.outcome)) else s
    case Setting(c, r) => if step.Publish? then PublishCall(s, t, c, r) else s
    case Removing(c, r) =>
      if step.Remove? then Move(s.(adding := s.adding - {s.calls[t].key}), t, Returned(c, r)) else s
    case Returned(c, r) => s
  }

  function Apply(s: State, step: Step): State {
    if step.Begin? then s.(calls := s.calls + [Call(step.key, Called)])
    else if step.call < |s.calls| then StepCall(s, step.call, step)
    else s
  }

  function Run(s: State, steps: seq<Step>): State
    decreases |steps|
  {
    if steps == [] then s else Run(Apply(s, steps[0]), steps[1..])
  }

  // ----- what every step keeps

  predicate InFlight(stage: Stage) { stage.Creating? || stage.Setting? || stage.Removing? }

  predicate CallOk(s: State, t: nat)
    requires t < |s.calls|
  {
    var call := s.calls[t];
    call.stage.Called? ||
    (var c := call.stage.cell;
     && c < |s.cells| && s.cells[c].key == call.key
     && (InFlight(call.stage) ==> s.cells[c].owner == t && call.key in s.adding && s.adding[call.key] == c)
     && (call.stage.Creating? || call.stage.Setting? ==> s.cells[c].value == None)
     && (call.stage.Removing? || call.stage.Returned? ==> s.cells[c].value == Some(call.stage.result)))
  }

  predicate CellOk(s: State, c: nat)
    requires c < |s.cells|
  {
    var owner := s.cells[c].owner;
    && owner < |s.calls| && s.calls[owner].key == s.cells[c].key
    && (InFlight(s.calls[owner].stage) || s.calls[owner].stage.Returned?) && s.calls[owner].stage.cell == c
  }

  predicate EntryOk(s: State, key: string)
    requires key in s.adding
  {
    var c := s.adding[key];
    c < |s.cells| && s.cells[c].key == key && s.cells[c].owner < |s.calls| && InFlight(s.calls[s.cells[c].owner].stage)
  }

  ghost predicate Inv(s: State) {
    && (forall t: nat :: t < |s.calls| ==> CallOk(s, t))
    && (forall c: nat :: c < |s.cells| ==> CellOk(s, c))
    && (forall key :: key in s.adding ==> EntryOk(s, key))
  }

  lemma BeginKeeps(s: State, key: string)
    requires Inv(s)
    ensures Inv(Apply(s, Begin(key)))
  {
    var n := Apply(s, Begin(key));
    forall t: nat | t < |n.calls| ensures CallOk(n, t) { if t < |s.calls| { assert CallOk(s, t); } }
    forall c: nat | c < |n.cells| ensures CellOk(n, c) { assert CellOk(s, c); }
    forall k | k in n.adding ensures EntryOk(n, k) { assert EntryOk(s, k); }
  }

  lemma JoinKeeps(s: State, t: nat)
    requires Inv(s) && t < |s.calls| && s.calls[t].stage.Called? && s.calls[t].key in s.adding
    ensures Inv(EnterCall(s, t))
  {
    var n := EnterCall(s, t);
    assert EntryOk(s, s.calls[t].key);
    forall u: nat | u < |n.calls| ensures CallOk(n, u) { assert CallOk(s, u); }
    forall c: nat | c < |n.cells| ensures CellOk(n, c) { assert CellOk(s, c); }
    forall k | k in n.adding ensures EntryOk(n, k) { assert EntryOk(s, k) && CellOk(s, s.adding[k]); }
  }

  lemma InsertKeeps(s: State, t: nat)
    requires Inv(s) && t < |s.calls| && s.calls[t].stage.Called? && s.calls[t].key !in s.adding
    ensures Inv(EnterCall(s, t))
  {
    var n := EnterCall(s, t);
    forall u: nat | u < |n.calls| ensures CallOk(n, u) { assert CallOk(s, u); }
    forall c: nat | c < |n.cells| ensures CellOk(n, c) { if c < |s.cells| { assert CellOk(s, c); } }
    forall k | k in n.adding ensures EntryOk(n, k) {
      if k in s.adding { assert EntryOk(s, k) && CellOk(s, s.adding[k]); }
    }
  }

  lemma WakeKeeps(s: State, t: nat, c: nat)
    requires Inv(s) && t < |s.calls| && s.calls[t].stage == Waiting(c) && c < |s.cells| && s.cells[c].value.Some?
    ensures Inv(Move(s, t, Returned(c, s.cells[c].value.value)))
  {
    var n := Move(s, t, Returned(c, s.cells[c].value.value));
    assert CallOk(s, t);
    forall u: nat | u < |n.calls| ensures CallOk(n, u) { assert CallOk(s, u); }
    forall d: nat | d < |n.cells| ensures CellOk(n, d) { assert CellOk(s, d); }
    forall k | k in n.adding ensures EntryOk(n, k) { assert EntryOk(s, k) && CellOk(s, s.adding[k]); }
  }

  lemma FinishKeeps(s: State, t: nat, c: nat, r: Outcome)
    requires Inv(s) && t < |s.calls| && s.calls[t].stage == Creating(c)
    ensures Inv(Move(s, t, Setting(c, r)))
  {
    var n := Move(s, t, Setting(c, r));
    forall u: nat | u < |n.calls| ensures CallOk(n, u) { assert CallOk(s, u); }
    forall d: nat | d < |n.cells| ensures CellOk(n, d) { assert CellOk(s, d); }
    forall k | k in n.adding ensures EntryOk(n, k) { assert EntryOk(s, k) && CellOk(s, s.adding[k]); }
  }

  lemma PublishKeeps(s: State, t: nat, c: nat, r: Outcome)
    requires Inv(s) && t < |s.calls| && s.calls[t].stage == Setting(c, r)
    ensures Inv(PublishCall(s, t, c, r))
  {
    var n := PublishCall(s, t, c, r);
    assert CallOk(s, t);
    forall u: nat | u < |n.calls| ensures CallOk(n, u) { assert CallOk(s, u); }
    forall d: nat | d < |n.cells| ensures CellOk(n, d) { assert CellOk(s, d); }
    forall k | k in n.adding ensures EntryOk(n, k) { assert EntryOk(s, k) && CellOk(s, s.adding[k]); }
  }

  lemma RemoveKeeps(s: State, t: nat, c: nat, r: Outcome)
    requires Inv(s) && t < |s.calls| && s.calls[t].stage == Removing(c, r)
    ensures Inv(Move(s.(adding := s.adding - {s.calls[t].key}), t, Returned(c, r)))
  {
    var n := Move(s.(adding := s.adding - {s.calls[t].key}), t, Returned(c, r));
    assert CallOk(s, t);
    forall u: nat | u < |n.calls| ensures CallOk(n, u) { assert CallOk(s, u); }
    forall d: nat | d < |n.cells| ensures CellOk(n, d) { assert CellOk(s, d); }
    forall k | k in n.adding ensures EntryOk(n, k) { assert EntryOk(s, k) && CellOk(s, s.adding[k]); }
  }

  lemma StepKeeps(s: State, step: Step)
    requires Inv(s)
    ensures Inv(Apply(s, step))
  {
    if step.Begin? {
      BeginKeeps(s, step.key);
    } else if step.call < |s.calls| {
      var t := step.call;
      match s.calls[t].stage
      case Called => if s.calls[t].key in s.adding { JoinKeeps(s, t); } else { InsertKeeps(s, t); }
      case Waiting(c) => if c < |s.cells| && s.cells[c].value.Some? { WakeKeeps(s, t, c); }
      case Creating(c) => if step.Finish? { FinishKeeps(s, t, c, step.outcome); }
      case Setting(c, r) => PublishKeeps(s, t, c, r);
      case Removing(c, r) => RemoveKeeps(s, t, c, r);
      case Returned(c, r) =>
    }
  }

  lemma {:induction false} RunKeeps(s: State, steps: seq<Step>)
    requires Inv(s)
    ensures Inv(Run(s, steps))
    decreases |steps|
  {
    if steps != [] {
      StepKeeps(s, steps[0]);
      RunKeeps(Apply(s, steps[0]), steps[1..]);
    }
  }

  // ----- what it is for

  ghost predicate CreatingFor(s: State, t: nat, key: string) {
    t < |s.calls| && s.calls[t].key == key && InFlight(s.calls[t].stage)
  }

  /** Over every interleaving, one call at most creates for a key, and the map has an entry for the key exactly
      while that call is between its insertion and its removal */
  lemma {:induction false} OneCreationPerKey(steps: seq<Step>, key: string)
    ensures var s := Run(INITIAL, steps);
      && (forall t: nat, u: nat :: CreatingFor(s, t, key) && CreatingFor(s, u, key) ==> t == u)
      && (key in s.adding <==> exists t: nat :: CreatingFor(s, t, key))
  {
    var s := Run(INITIAL, steps);
    RunKeeps(INITIAL, steps);
    forall t: nat, u: nat | CreatingFor(s, t, key) && CreatingFor(s, u, key) ensures t == u {
      assert CallOk(s, t) && CallOk(s, u);
    }
    if key in s.adding {
      assert EntryOk(s, key) && CellOk(s, s.adding[key]);
      assert CreatingFor(s, s.cells[s.adding[key]].owner, key);
    }
    forall t: nat | CreatingFor(s, t, key) ensures key in s.adding { assert CallOk(s, t); }
  }

  ghost predicate Holds(s: State, t: nat, c: nat) {
    t < |s.calls| && !s.calls[t].stage.Called? && s.calls[t].stage.cell == c
  }

  /** A call keeps the cell it entered with */
  lemma {:induction false} CellSticks(s: State, steps: seq<Step>, t: nat, c: nat)
    requires Holds(s, t, c)
    ensures Holds(Run(s, steps), t, c)
    decreases |steps|
  {
    if steps != [] {
      CellSticksStep(s, steps[0], t, c);
      CellSticks(Apply(s, steps[0]), steps[1..], t, c);
    }
  }

  lemma CellSticksStep(s: State, step: Step, t: nat, c: nat)
    requires Holds(s, t, c)
    ensures Holds(Apply(s, step), t, c)
  {}

  /** A call that finds a creation under way returns what that creation returned, whatever happens in between */
  lemma {:induction false} JoinersReturnTheOwnersResult(before: seq<Step>, t: nat, after: seq<Step>)
    requires var s := Run(INITIAL, before); t < |s.calls| && s.calls[t].stage.Called? && s.calls[t].key in s.adding
    ensures var s := Run(INITIAL, before);
      exists owner: nat :: CreatingFor(s, owner, s.calls[t].key) && owner != t &&
        var n := Run(Apply(s, Enter(t)), after);
        t < |n.calls| && owner < |n.calls| &&
        (n.calls[t].stage.Returned? && n.calls[owner].stage.Returned? ==>
          n.calls[t].stage.result == n.calls[owner].stage.result)
  {
    var s := Run(INITIAL, before);
    var key := s.calls[t].key;
    RunKeeps(INITIAL, before);
    assert EntryOk(s, key) && CellOk(s, s.adding[key]);
    var c := s.adding[key];
    var owner := s.cells[c].owner;
    var m := Apply(s, Enter(t));
    StepKeeps(s, Enter(t));
    RunKeeps(m, after);
    CellSticks(m, after, t, c);
    CellSticks(m, after, owner, c);
    var n := Run(m, after);
    assert CallOk(n, t) && CallOk(n, owner);
    assert CreatingFor(s, owner, key);
  }

  ghost predicate Bound(s: State, t: nat, r: Outcome) {
    && t < |s.calls|
    && (s.calls[t].stage.Setting? || s.calls[t].stage.Removing? || s.calls[t].stage.Returned?)
    && s.calls[t].stage.result == r
  }

  /** What a creation came to is what its own call returns */
  lemma {:induction false} CreatorsReturnTheirOwn(s: State, steps: seq<Step>, t: nat, r: Outcome)
    requires Bound(s, t, r)
    ensures Bound(Run(s, steps), t, r)
    decreases |steps|
  {
    if steps != [] {
      BoundStays(s, steps[0], t, r);
      CreatorsReturnTheirOwn(Apply(s, steps[0]), steps[1..], t, r);
    }
  }

  lemma BoundStays(s: State, step: Step, t: nat, r: Outcome)
    requires Bound(s, t, r)
    ensures Bound(Apply(s, step), t, r)
  {}

  ghost predicate Over(s: State, owner: nat, c: nat) {
    && owner < |s.calls| && s.calls[owner].stage.Returned? && s.calls[owner].stage.cell == c
    && c < |s.cells| && s.cells[c].owner == owner
  }

  ghost predicate Without(s: State, t: nat, c: nat) {
    t < |s.calls| && (s.calls[t].stage.Called? || s.calls[t].stage.cell != c)
  }

  lemma NotGiven(s: State, step: Step, owner: nat, t: nat, c: nat)
    requires Inv(s) && Over(s, owner, c) && Without(s, t, c)
    ensures Over(Apply(s, step), owner, c) && Without(Apply(s, step), t, c)
  {
    if s.calls[t].key in s.adding { assert EntryOk(s, s.calls[t].key); }
  }

  lemma OverStays(s: State, step: Step, owner: nat, c: nat)
    requires Inv(s) && Over(s, owner, c)
    ensures Over(Apply(s, step), owner, c)
  {}

  lemma NoneGets(s: State, step: Step, owner: nat, c: nat, t: nat)
    requires Inv(s) && Over(s, owner, c) && Holds(Apply(s, step), t, c)
    ensures Holds(s, t, c)
  {
    if t < |s.calls| && s.calls[t].stage.Called? { NotGiven(s, step, owner, t, c); }
  }

  /** A creation whose call has returned is over for good: whatever calls are begun and made afterwards, the calls
      that hold its cell are those that had joined it by then */
  lemma {:induction false} NoStaleResult(s: State, steps: seq<Step>, owner: nat, c: nat)
    requires Inv(s) && Over(s, owner, c)
    ensures Over(Run(s, steps), owner, c)
    ensures forall t: nat :: Holds(Run(s, steps), t, c) ==> Holds(s, t, c)
    decreases |steps|
  {
    if steps != [] {
      var n := Apply(s, steps[0]);
      StepKeeps(s, steps[0]);
      OverStays(s, steps[0], owner, c);
      NoStaleResult(n, steps[1..], owner, c);
      forall t: nat | Holds(n, t, c) ensures Holds(s, t, c) { NoneGets(s, steps[0], owner, c, t); }
    }
  }

  /** Nobody waits for nothing: behind every wait there is a call whose next steps end it */
  lemma {:induction false} WaitsEnd(before: seq<Step>, t: nat)
    requires var s := Run(INITIAL, before); t < |s.calls| && s.calls[t].stage.Waiting?
    ensures var s := Run(INITIAL, before);
      var c := s.calls[t].stage.cell;
      c < |s.cells| &&
      (s.cells[c].value.Some? ==> Apply(s, Wake(t)).calls[t].stage.Returned?) &&
      (s.cells[c].value.None? ==>
        var owner := s.cells[c].owner;
        owner < |s.calls| && owner != t && (s.calls[owner].stage.Creating? || s.calls[owner].stage.Setting?))
  {
    var s := Run(INITIAL, before);
    RunKeeps(INITIAL, before);
    assert CallOk(s, t);
    var c := s.calls[t].stage.cell;
    assert CellOk(s, c) && CallOk(s, s.cells[c].owner);
  }

  predicate StepsOf(step: Step, t: nat) { !step.Begin? && step.call == t }

  predicate OfOthers(steps: seq<Step>, t: nat) { forall step :: step in steps ==> !StepsOf(step, t) }

  /** Others leave a call where it stands */
  lemma {:induction false} OthersPass(s: State, steps: seq<Step>, t: nat)
    requires t < |s.calls| && OfOthers(steps, t)
    ensures t < |Run(s, steps).calls| && Run(s, steps).calls[t] == s.calls[t]
    decreases |steps|
  {
    if steps != [] {
      assert steps[0] in steps && forall step :: step in steps[1..] ==> step in steps;
      OthersPass(Apply(s, steps[0]), steps[1..], t);
    }
  }

  lemma {:induction false} RunBoth(s: State, a: seq<Step>, b: seq<Step>)
    ensures Run(s, a + b) == Run(Run(s, a), b)
    decreases |a|
  {
    if a == [] {
      assert a + b == b;
    } else {
      assert (a + b)[1..] == a[1..] + b;
      RunBoth(Apply(s, a[0]), a[1..], b);
    }
  }

  /** One step of a call's own and then any of others' */
  lemma {:induction false} OwnStep(s: State, step: Step, others: seq<Step>, t: nat)
    requires t < |s.calls| && StepsOf(step, t) && OfOthers(others, t)
    ensures Run(s, [step] + others) == Run(Apply(s, step), others)
    ensures t < |Apply(s, step).calls| && t < |Run(s, [step] + others).calls|
    ensures Run(s, [step] + others).calls[t] == Apply(s, step).calls[t]
  {
    assert ([step] + others)[1..] == others;
    OthersPass(Apply(s, step), others, t);
  }

  /** A creation comes to its end: once it has finished with an outcome, its call's two steps that follow set the cell,
      return that outcome and free the key, whatever others do in between */
  lemma {:induction false} CreationEnds(s: State, t: nat, c: nat, r: Outcome, a: seq<Step>, b: seq<Step>)
    requires Inv(s) && t < |s.calls| && s.calls[t].stage == Creating(c) && OfOthers(a, t) && OfOthers(b, t)
    ensures var n := Run(s, [Finish(t, r)] + a + ([Publish(t)] + b) + [Remove(t)]);
      && t < |n.calls| && n.calls[t].stage == Returned(c, r) && s.calls[t].key !in n.adding
      && c < |n.cells| && n.cells[c].value == Some(r)
  {
    var finished, published := [Finish(t, r)] + a, [Publish(t)] + b;
    var s1 := Run(s, finished);
    var s2 := Run(s1, published);
    var last := [Remove(t)];
    OwnStep(s, Finish(t, r), a, t);
    RunKeeps(s, finished);
    assert CallOk(s1, t);
    OwnStep(s1, Publish(t), b, t);
    RunKeeps(s1, published);
    OwnStep(s2, Remove(t), [], t);
    RunKeeps(s2, last);
    assert last + [] == last && CallOk(Run(s2, last), t);
    RunBoth(s, finished, published);
    RunBoth(s, finished + published, last);
  }

  /** A joined call returns with the outcome once it has been set */
  lemma {:induction false} JoinerReturns(s: State, t: nat, c: nat, r: Outcome, others: seq<Step>)
    requires Inv(s) && t < |s.calls| && s.calls[t].stage == Waiting(c) && c < |s.cells| && s.cells[c].value == Some(r)
    requires OfOthers(others, t)
    ensures var n := Run(s, [Wake(t)] + others); t < |n.calls| && n.calls[t].stage == Returned(c, r)
  {
    OwnStep(s, Wake(t), others, t);
  }

  /** A call joins the creation under way for its key, and creates when there is none */
  lemma EntersExactly(s: State, t: nat)
    requires Inv(s) && t < |s.calls| && s.calls[t].stage.Called?
    ensures var n, key := Apply(s, Enter(t)), s.calls[t].key;
      && t < |n.calls| && key in n.adding && n.calls[t].stage.cell == n.adding[key]
      && if key in s.adding then n.calls[t].stage.Waiting? && n.adding == s.adding
         else n.calls[t].stage.Creating? && n.adding[key] < |n.cells| && n.cells[n.adding[key]].value == None
  {}

  /** The map and its cells, shared by all calls; where each call stands is bookkeeping */
  class Registry {
    var adding: map<string, nat>
    var values: seq<Option<Outcome>>
    ghost var cells: seq<Cell>
    ghost var calls: seq<Call>

    ghost predicate Valid()
      reads this
    {
      |values| == |cells| && forall c :: 0 <= c < |cells| ==> values[c] == cells[c].value
    }

    ghost function View(): State
      reads this
    {
      State(adding, cells, calls)
    }

    constructor ()
      ensures Valid() && View() == INITIAL
    {
      adding, values, cells, calls := map[], [], [], [];
    }

    ghost method Begin(key: string) returns (t: nat)
      requires Valid()
      modifies this`calls
      ensures Valid() && View() == Apply(old(View()), Step.Begin(key))
      ensures t < |calls| && calls[t] == Call(key, Called)
    {
      t := |calls|;
      calls := calls + [Call(key, Called)];
    }

    /** The first lock scope: join the creation under way, or put a new cell into the map */
    method Enter(ghost t: nat, key: string) returns (cell: nat, joined: bool)
      requires Valid() && t < |calls| && calls[t] == Call(key, Called)
      modifies this
      ensures Valid() && View() == Apply(old(View()), Step.Enter(t))
      ensures t < |calls| && calls[t].stage == if joined then Waiting(cell) else Creating(cell)
    {
      joined := key in adding;
      if joined {
        cell := adding[key];
      } else {
        cell := |values|;
        values := values + [None];
        adding := adding[key := cell];
        cells := cells + [Cell(key, t, None)];
      }
      calls := calls[t := calls[t].(stage := if joined then Waiting(cell) else Creating(cell))];
    }

    /** The owner's outcome goes into the cell, for those that wait and those that still join */
    method Publish(ghost t: nat, cell: nat, result: Outcome)
      requires Valid() && t < |calls| && calls[t].stage == Setting(cell, result) && cell < |cells|
      modifies this
      ensures Valid() && View() == Apply(old(View()), Step.Publish(t))
    {
      if values[cell].None? {
        values := values[cell := Some(result)];
        cells := cells[cell := cells[cell].(value := Some(result))];
      }
      calls := calls[t := calls[t].(stage := Removing(cell, result))];
    }

    /** A joined call's wait, which ends once the cell is set */
    method Wait(ghost t: nat, cell: nat) returns (result: Option<Outcome>)
      requires Valid() && t < |calls| && calls[t].stage == Waiting(cell) && cell < |cells|
      modifies this`calls
      ensures Valid() && View() == Apply(old(View()), Step.Wake(t))
      ensures result == cells[cell].value
    {
      result := values[cell];
      calls := Apply(View(), Step.Wake(t)).calls;
    }

    /** The second lock scope, behind which a call creates anew */
    method Remove(ghost t: nat, key: string, ghost cell: nat, ghost result: Outcome)
      requires Valid() && t < |calls| && calls[t] == Call(key, Removing(cell, result))
      modifies this
      ensures Valid() && View() == Apply(old(View()), Step.Remove(t))
    {
      adding := adding - {key};
      calls := calls[t := calls[t].(stage := Returned(cell, result))];
    }
  }
}
