/** The status of a session that runs an agent, kept by a watcher that polls its hook file and its screen and
    skips a poll when neither can have changed. What the screen says at a seq is an input. */
module StatusWatch {
  import opened Wrappers

  datatype Hook = Input | Working | Done

  /** What is read off the screen: a prompt, a sign of work, a footer that counts what was left running */
  datatype Screen = Screen(waiting: bool, working: bool, background: bool)

  datatype AgentState = Asking | Running | Watched | Resting

  datatype Status = IsRunning | Needs | IsDone | Idle | Exited | Errored | Restored | Crashed | Watching

  datatype Seen = Seen(hook: Option<Hook>, at: nat, worked: bool)

  datatype State = State(seen: Seen, status: Status)

  /** Only a launched Claude has hooks; `shows` is the screen at each seq */
  datatype Session = Session(hooked: bool, shows: nat -> Screen)

  datatype Reading = Reading(file: Option<Hook>, at: nat)

  const FRESH := Seen(None, 0, false)

  // ----- one poll

  function HookOf(a: Session, p: Reading): Option<Hook> { if a.hooked then p.file else None }

  function StateOf(hook: Option<Hook>, hooked: bool, screen: Screen): AgentState {
    if hook == Some(Input) then Asking
    else if hook == Some(Working) then Running
    else if hook.Some? || hooked then (if screen.background then Watched else Resting)
    else if screen.waiting then Asking
    else if screen.working then Running
    else Resting
  }

  predicate ScreenMatters(hook: Option<Hook>) { hook != Some(Input) && hook != Some(Working) }

  /** The screen is not read while the hook decides */
  function Looks(a: Session, p: Reading): AgentState {
    StateOf(HookOf(a, p), a.hooked, if ScreenMatters(HookOf(a, p)) then a.shows(p.at) else Screen(false, false, false))
  }

  function AgentStatus(previous: Status, state: AgentState, finished: bool): Status {
    match state
    case Asking => Needs
    case Running => IsRunning
    case Watched => Watching
    case Resting => if finished || previous == IsDone then IsDone else Idle
  }

  predicate Live(status: Status) {
    status == IsRunning || status == Needs || status == IsDone || status == Idle || status == Watching
  }

  /** A status that is not a live one is never overwritten by a poll */
  function SetLive(before: Status, status: Status): Status { if Live(before) then status else before }

  predicate Finished(a: Session, s: State, p: Reading) {
    if a.hooked then HookOf(a, p) == Some(Done) else s.seen.worked && Looks(a, p) == Resting
  }

  function Worked(a: Session, s: State, p: Reading): bool {
    if a.hooked then s.seen.worked else Looks(a, p) == Running || Looks(a, p) == Asking
  }

  /** The poll carried out */
  function Look(a: Session, s: State, p: Reading): State {
    State(Seen(HookOf(a, p), p.at, Worked(a, s, p)),
      SetLive(s.status, AgentStatus(s.status, Looks(a, p), Finished(a, s, p))))
  }

  predicate Skips(a: Session, s: State, p: Reading) {
    HookOf(a, p) == s.seen.hook && (p.at == s.seen.at || !ScreenMatters(HookOf(a, p)))
  }

  function PollStep(a: Session, s: State, p: Reading): State { if Skips(a, s, p) then s else Look(a, s, p) }

  function Polls(a: Session, s: State, polls: seq<Reading>): State
    decreases |polls|
  {
    if polls == [] then s else Polls(a, PollStep(a, s, polls[0]), polls[1..])
  }

  /** Every poll carried out, none skipped */
  function LooksAll(a: Session, s: State, polls: seq<Reading>): State
    decreases |polls|
  {
    if polls == [] then s else LooksAll(a, Look(a, s, polls[0]), polls[1..])
  }

  // ----- skipping changes nothing

  predicate Agree(s: State, t: State) {
    s.status == t.status && s.seen.worked == t.seen.worked
  }

  /** Nothing new would come of looking again at what was last seen */
  predicate Settled(a: Session, s: State) { Look(a, s, Reading(s.seen.hook, s.seen.at)) == s }

  lemma LookSettles(a: Session, s: State, p: Reading)
    ensures Settled(a, Look(a, s, p))
  {}

  lemma SkipAgrees(a: Session, s: State, t: State, p: Reading)
    requires Settled(a, s) && Agree(s, t) && Skips(a, s, p)
    ensures Agree(s, Look(a, t, p))
  {}

  lemma LookAgrees(a: Session, s: State, t: State, p: Reading)
    requires Agree(s, t)
    ensures Agree(Look(a, s, p), Look(a, t, p))
  {}

  lemma {:induction false} SettledRunsAgree(a: Session, s: State, t: State, polls: seq<Reading>)
    requires Settled(a, s) && Agree(s, t)
    ensures Agree(Polls(a, s, polls), LooksAll(a, t, polls))
    decreases |polls|
  {
    if polls != [] {
      var p := polls[0];
      if Skips(a, s, p) {
        SkipAgrees(a, s, t, p);
        SettledRunsAgree(a, s, Look(a, t, p), polls[1..]);
      } else {
        LookAgrees(a, s, t, p);
        LookSettles(a, s, p);
        SettledRunsAgree(a, Look(a, s, p), Look(a, t, p), polls[1..]);
      }
    }
  }

  predicate Unseen(a: Session, p: Reading) { HookOf(a, p) == None && p.at == 0 }

  predicate AllUnseen(a: Session, polls: seq<Reading>) { forall p :: p in polls ==> Unseen(a, p) }

  /** A terminal that has put nothing out yet is blank */
  predicate BlankAtZero(a: Session) { a.shows(0) == Screen(false, false, false) }

  function RestingFrom(status: Status): Status { SetLive(status, if status == IsDone then IsDone else Idle) }

  lemma LookUnseen(a: Session, status: Status, p: Reading)
    requires BlankAtZero(a) && Unseen(a, p)
    ensures Look(a, State(FRESH, status), p) == State(FRESH, RestingFrom(status))
    ensures RestingFrom(RestingFrom(status)) == RestingFrom(status)
  {}

  lemma {:induction false} StartSkipped(a: Session, status: Status, polls: seq<Reading>)
    requires AllUnseen(a, polls) && BlankAtZero(a)
    ensures Polls(a, State(FRESH, status), polls) == State(FRESH, status)
    ensures LooksAll(a, State(FRESH, status), polls)
            == State(FRESH, if polls == [] then status else RestingFrom(status))
    decreases |polls|
  {
    if polls != [] {
      assert polls[0] in polls;
      LookUnseen(a, status, polls[0]);
      StartSkipped(a, status, polls[1..]);
      StartSkipped(a, RestingFrom(status), polls[1..]);
    }
  }

  /** From the watcher's start, looking first from a resting status comes to the same */
  lemma {:induction false} StartAgrees(a: Session, s: Status, t: Status, polls: seq<Reading>)
    requires BlankAtZero(a) && !AllUnseen(a, polls) && (t == s || t == RestingFrom(s))
    ensures Agree(Polls(a, State(FRESH, s), polls), LooksAll(a, State(FRESH, t), polls))
    decreases |polls|
  {
    var p := polls[0];
    if Unseen(a, p) {
      LookUnseen(a, t, p);
      LookUnseen(a, s, p);
      assert forall q :: q in polls ==> q == p || q in polls[1..];
      StartAgrees(a, s, RestingFrom(s), polls[1..]);
    } else {
      LookSettles(a, State(FRESH, s), p);
      SettledRunsAgree(a, Look(a, State(FRESH, s), p), Look(a, State(FRESH, t), p), polls[1..]);
    }
  }

  /** A session created as running that has put nothing out is left running, though a poll would find it at rest */
  lemma {:induction false} UnseenPollIsSkipped(a: Session)
    requires BlankAtZero(a)
    ensures var start, polls := State(FRESH, IsRunning), [Reading(None, 0)];
      Polls(a, start, polls).status == IsRunning && LooksAll(a, start, polls).status == Idle
  {
    var polls := [Reading(None, 0)];
    assert polls[1..] == [];
    StartSkipped(a, IsRunning, polls);
  }

  /** Skipping polls leaves the same status as carrying every one out, exactly if some poll saw output or a hook,
      or there was no poll, or the status the session was created with is the one a blank screen gives */
  lemma {:induction false} SkippedPollsChangeNothing(a: Session, status: Status, polls: seq<Reading>)
    requires BlankAtZero(a)
    ensures Polls(a, State(FRESH, status), polls).status == LooksAll(a, State(FRESH, status), polls).status
      <==> !AllUnseen(a, polls) || polls == [] || status !in {IsRunning, Needs, Watching}
  {
    if AllUnseen(a, polls) { StartSkipped(a, status, polls); } else { StartAgrees(a, status, status, polls); }
  }

  /** A status that polls change */
  predicate Ongoing(status: Status) { status in {IsRunning, Needs, IsDone, Idle, Watching} }

  // ----- an agent read off its screen

  predicate ShowsBusy(screen: Screen) { screen.waiting || screen.working }

  /** A prompt wins over a sign of work; `busy` says that either was seen, or that the agent was done already */
  function StatusShown(screen: Screen, busy: bool): Status {
    if screen.waiting then Needs else if screen.working then IsRunning else if busy then IsDone else Idle
  }

  predicate FoundBusy(a: Session, polls: seq<Reading>) {
    exists i :: 0 <= i < |polls| && ShowsBusy(a.shows(polls[i].at))
  }

  /** The polls from the first one on that found output */
  function Sighted(polls: seq<Reading>): seq<Reading> {
    if polls == [] || polls[0].at != 0 then polls else Sighted(polls[1..])
  }

  /** The status is that of the screen seen last */
  predicate Matches(a: Session, s: State, busy: bool) {
    var screen := a.shows(s.seen.at);
    && s.seen.hook == None && s.seen.worked == ShowsBusy(screen) && s.status == StatusShown(screen, busy)
    && (ShowsBusy(screen) ==> busy)
  }

  lemma PollMatches(a: Session, s: State, p: Reading, busy: bool)
    requires !a.hooked && Matches(a, s, busy)
    ensures Matches(a, PollStep(a, s, p), busy || ShowsBusy(a.shows(p.at))) && PollStep(a, s, p).seen.at == p.at
  {}

  lemma FirstMatches(a: Session, status: Status, p: Reading)
    requires !a.hooked && Ongoing(status) && p.at != 0
    ensures Matches(a, PollStep(a, State(FRESH, status), p), status == IsDone || ShowsBusy(a.shows(p.at)))
    ensures PollStep(a, State(FRESH, status), p).seen.at == p.at
  {}

  lemma FoundBusyFirst(a: Session, polls: seq<Reading>)
    requires polls != []
    ensures FoundBusy(a, polls) <==> ShowsBusy(a.shows(polls[0].at)) || FoundBusy(a, polls[1..])
  {
    if i :| 0 < i < |polls| && ShowsBusy(a.shows(polls[i].at)) {
      assert polls[1..][i - 1] == polls[i];
    }
  }

  lemma {:induction false} PollsMatch(a: Session, s: State, polls: seq<Reading>, busy: bool)
    requires !a.hooked && Matches(a, s, busy)
    ensures Matches(a, Polls(a, s, polls), busy || FoundBusy(a, polls))
    ensures Polls(a, s, polls).seen.at == if polls == [] then s.seen.at else polls[|polls| - 1].at
    decreases |polls|
  {
    if polls != [] {
      PollMatches(a, s, polls[0], busy);
      PollsMatch(a, PollStep(a, s, polls[0]), polls[1..], busy || ShowsBusy(a.shows(polls[0].at)));
      FoundBusyFirst(a, polls);
    }
  }

  lemma {:induction false} BlindPolls(a: Session, status: Status, polls: seq<Reading>)
    requires !a.hooked
    ensures Polls(a, State(FRESH, status), polls) == Polls(a, State(FRESH, status), Sighted(polls))
  {
    if polls != [] && polls[0].at == 0 { BlindPolls(a, status, polls[1..]); }
  }

  lemma {:induction false} SightedFirst(polls: seq<Reading>)
    ensures Sighted(polls) != [] ==> Sighted(polls)[0].at != 0
  {
    if polls != [] && polls[0].at == 0 { SightedFirst(polls[1..]); }
  }

  /** After any run of polls an agent read off its screen needs its user when the last screen shows a prompt, runs when
      it shows work and no prompt, and rests otherwise; resting it is done exactly if a screen was busy since there was
      output, or it was done already. Until there is output its status stays */
  lemma {:induction false} ScreenStatus(a: Session, status: Status, polls: seq<Reading>)
    requires !a.hooked && Ongoing(status)
    ensures var seen := Sighted(polls);
      Polls(a, State(FRESH, status), polls).status
      == if seen == [] then status
         else StatusShown(a.shows(seen[|seen| - 1].at), status == IsDone || FoundBusy(a, seen))
  {
    var seen := Sighted(polls);
    BlindPolls(a, status, polls);
    SightedFirst(polls);
    if seen != [] {
      FirstMatches(a, status, seen[0]);
      PollsMatch(a, PollStep(a, State(FRESH, status), seen[0]), seen[1..],
        status == IsDone || ShowsBusy(a.shows(seen[0].at)));
      FoundBusyFirst(a, seen);
    }
  }

  // ----- an agent with hooks

  /** No hook says otherwise, and nothing was left running */
  predicate Quiet(a: Session, p: Reading) {
    p.file != Some(Input) && p.file != Some(Working) && !a.shows(p.at).background
  }

  /** Whether the quiet polls that end a run started at a finished turn */
  function DoneSince(a: Session, wasDone: bool, polls: seq<Reading>): bool
    decreases |polls|
  {
    if polls == [] then wasDone
    else DoneSince(a, Quiet(a, polls[0]) && (polls[0].file == Some(Done) || wasDone), polls[1..])
  }

  function HookShown(a: Session, p: Reading, done: bool): Status {
    if p.file == Some(Input) then Needs
    else if p.file == Some(Working) then IsRunning
    else if a.shows(p.at).background then Watching
    else if done then IsDone else Idle
  }

  lemma {:induction false} LooksOfHooks(a: Session, s: State, polls: seq<Reading>)
    requires a.hooked && Ongoing(s.status) && polls != []
    ensures LooksAll(a, s, polls).status
            == HookShown(a, polls[|polls| - 1], DoneSince(a, s.status == IsDone, polls))
    decreases |polls|
  {
    if |polls| > 1 {
      LooksOfHooks(a, Look(a, s, polls[0]), polls[1..]);
    } else {
      assert polls[1..] == [];
    }
  }

  /** Once a hook or output was seen, an agent with hooks needs its user when the last poll's hook says input, runs when
      it says working, and is watched over when it says neither and the screen counts what was left running; otherwise
      it rests, and is done exactly if a hook said so since the agent last did anything else, or it was done before
      that */
  lemma {:induction false} HookStatus(a: Session, status: Status, polls: seq<Reading>)
    requires a.hooked && Ongoing(status) && BlankAtZero(a) && !AllUnseen(a, polls)
    ensures Polls(a, State(FRESH, status), polls).status
            == HookShown(a, polls[|polls| - 1], DoneSince(a, status == IsDone, polls))
  {
    SkippedPollsChangeNothing(a, status, polls);
    LooksOfHooks(a, State(FRESH, status), polls);
  }

  /** Once a session has ended no poll changes its status */
  lemma {:induction false} EndIsFinal(a: Session, s: State, polls: seq<Reading>)
    requires s.status == Exited || s.status == Errored || s.status == Restored || s.status == Crashed
    ensures Polls(a, s, polls).status == s.status
    decreases |polls|
  {
    if polls != [] { EndIsFinal(a, PollStep(a, s, polls[0]), polls[1..]); }
  }

  // ----- agents that come and go in a shell

  datatype Kind = Shell | Claude | Codex

  /** A session launched as a shell is of the kind that its foreground process makes it */
  datatype Terminal = Terminal(kind: Kind, watched: State)

  datatype Event =
    | Polled(kind: Kind, reading: Reading)       // with the kind the session had when the poll began
    | Dropped                                    // the loop finds no agent and drops what it saw
    | KindSet(kind: Kind)                        // what runs in the foreground has been looked up
    | ShellStatus(atPrompt: bool)                // after that, if it is the shell

  /** A status found for an agent that has left the foreground meanwhile is not set */
  function Happen(a: Session, t: Terminal, event: Event): Terminal {
    match event
    case Polled(kind, p) =>
      var s := PollStep(a, t.watched, p);
      t.(watched := if kind == t.kind then s else s.(status := t.watched.status))
    case Dropped => t.(watched := State(FRESH, t.watched.status))
    case KindSet(kind) => t.(kind := kind)
    case ShellStatus(atPrompt) =>
      var status := SetLive(t.watched.status, if atPrompt then Idle else IsRunning);
      if t.kind == Shell then t.(watched := t.watched.(status := status)) else t
  }

  function Life(a: Session, t: Terminal, events: seq<Event>): Terminal
    decreases |events|
  {
    if events == [] then t else Life(a, Happen(a, t, events[0]), events[1..])
  }

  /** The loop polls agents only */
  predicate OfAgents(events: seq<Event>) { forall e :: e in events ==> e.Polled? ==> e.kind != Shell }

  /** A shell that runs is idle or running: no agent's status is left over */
  predicate NoAgentLeft(t: Terminal) {
    t.kind == Shell && Live(t.watched.status) ==> t.watched.status == Idle || t.watched.status == IsRunning
  }

  /** Whether the terminal is a shell whose status has been set since its last agent left */
  function Told(kind: Kind, told: bool, events: seq<Event>): bool
    decreases |events|
  {
    if events == [] then told
    else match events[0]
      case KindSet(next) => Told(next, told && kind == Shell && next == Shell, events[1..])
      case ShellStatus(_) => Told(kind, kind == Shell, events[1..])
      case _ => Told(kind, told, events[1..])
  }

  /** Over every run, whatever polls were under way when an agent left */
  lemma {:induction false} ShellIsNoAgent(a: Session, t: Terminal, told: bool, events: seq<Event>)
    requires (told ==> NoAgentLeft(t)) && OfAgents(events)
    ensures Told(t.kind, told, events) ==> NoAgentLeft(Life(a, t, events))
    decreases |events|
  {
    if events != [] {
      var e := events[0];
      assert e in events;
      var told' := if e.KindSet? then told && t.kind == Shell && e.kind == Shell
                   else if e.ShellStatus? then t.kind == Shell else told;
      ShellIsNoAgent(a, Happen(a, t, e), told', events[1..]);
    }
  }

  /** Until its status is set the shell shows what its agent left behind */
  lemma {:induction false} LeftStatusLingers(a: Session, kind: Kind, status: Status)
    requires kind != Shell && Live(status) && status != Idle && status != IsRunning
    ensures var t := Terminal(kind, State(FRESH, status));
      && !NoAgentLeft(Life(a, t, [KindSet(Shell)]))
      && NoAgentLeft(Life(a, t, [KindSet(Shell), ShellStatus(true)]))
  {
    var t := Terminal(kind, State(FRESH, status));
    LifeOne(a, t, KindSet(Shell));
    LifeThen(a, t, KindSet(Shell), [ShellStatus(true)]);
    LifeOne(a, Happen(a, t, KindSet(Shell)), ShellStatus(true));
  }

  predicate ShellEvent(e: Event) { e.Dropped? || e.ShellStatus? || e == KindSet(Shell) }

  /** The foreground is the shell, and the loop sees it */
  predicate AtShell(events: seq<Event>) {
    && Dropped in events
    && forall e :: e in events ==> ShellEvent(e)
  }

  predicate AtAgent(events: seq<Event>, kind: Kind) {
    forall e :: e in events ==> e.ShellStatus? || (!e.Dropped? && e.kind == kind)
  }

  function Readings(events: seq<Event>): seq<Reading> {
    if events == [] then [] else (if events[0].Polled? then [events[0].reading] else []) + Readings(events[1..])
  }

  lemma {:induction false} AtShellIsFresh(a: Session, t: Terminal, events: seq<Event>)
    requires t.kind == Shell && NoAgentLeft(t) && Live(t.watched.status) && (AtShell(events) || t.watched.seen == FRESH)
    requires forall e :: e in events ==> ShellEvent(e)
    ensures var u := Life(a, t, events);
      u.kind == Shell && u.watched.seen == FRESH && (u.watched.status == Idle || u.watched.status == IsRunning)
    decreases |events|
  {
    if events != [] {
      var u := Happen(a, t, events[0]);
      assert events[0] in events && forall e :: e in events ==> e == events[0] || e in events[1..];
      AtShellIsFresh(a, u, events[1..]);
    }
  }

  lemma {:induction false} PollsFirst(a: Session, s: State, p: Reading, rest: seq<Reading>)
    ensures Polls(a, s, [p] + rest) == Polls(a, PollStep(a, s, p), rest)
  {
    assert ([p] + rest)[1..] == rest;
  }

  lemma {:induction false} AtAgentPolls(a: Session, t: Terminal, events: seq<Event>)
    requires t.kind != Shell && AtAgent(events, t.kind)
    ensures Life(a, t, events) == t.(watched := Polls(a, t.watched, Readings(events)))
    decreases |events|
  {
    if events != [] {
      assert events[0] in events;
      var u := Happen(a, t, events[0]);
      assert forall e :: e in events[1..] ==> e in events;
      AtAgentPolls(a, u, events[1..]);
      if events[0].Polled? {
        assert u == t.(watched := PollStep(a, t.watched, events[0].reading));
        PollsFirst(a, t.watched, events[0].reading, Readings(events[1..]));
      } else {
        assert u == t && Readings(events) == [] + Readings(events[1..]) == Readings(events[1..]);
      }
    }
  }

  /** What a run of polls says of one agent read off its screen, from a status that is not done */
  predicate SaysOf(a: Session, start: State, polls: seq<Reading>, status: Status) {
    var seen := Sighted(polls);
    status == if seen == [] then start.status else StatusShown(a.shows(seen[|seen| - 1].at), FoundBusy(a, seen))
  }

  /** Once the loop has seen the shell at its prompt, the status of the agent that is started next is that of its own
      polls: nothing an agent before it did makes it done */
  lemma {:induction false} NextAgentStartsFresh(a: Session, t: Terminal, prompt: seq<Event>, kind: Kind,
                                                agent: seq<Event>)
    requires !a.hooked && t.kind == Shell && NoAgentLeft(t) && Live(t.watched.status)
    requires AtShell(prompt) && kind != Shell && AtAgent(agent, kind)
    ensures var start := Life(a, t, prompt).watched;
      && start.seen == FRESH
      && SaysOf(a, start, Readings(agent), Life(a, Terminal(kind, start), agent).watched.status)
  {
    AtShellIsFresh(a, t, prompt);
    var start := Life(a, t, prompt).watched;
    AtAgentPolls(a, Terminal(kind, start), agent);
    ScreenStatus(a, start.status, Readings(agent));
  }

  /** An agent started before the loop sees the shell is taken for the one before it: it has only rested, and is done
      because that one was at work */
  lemma {:induction false} QuickAgentIsDone(a: Session, kind: Kind)
    requires !a.hooked && kind != Shell && !a.shows(1).waiting && a.shows(1).working
    requires !a.shows(2).waiting && !a.shows(2).working
    ensures var busy := Life(a, Terminal(kind, State(FRESH, Idle)), [Polled(kind, Reading(None, 1))]);
      var left, next := [KindSet(Shell), ShellStatus(true)], [KindSet(kind), Polled(kind, Reading(None, 2))];
      && Life(a, Life(a, busy, left), next).watched.status == IsDone
      && Life(a, Life(a, busy, left), [Dropped] + next).watched.status == Idle
  {
    var busy, rests := Polled(kind, Reading(None, 1)), Polled(kind, Reading(None, 2));
    var t := Terminal(kind, State(FRESH, Idle));
    assert Looks(a, Reading(None, 1)) == Running && Looks(a, Reading(None, 2)) == Resting;
    var t1 := Terminal(kind, State(Seen(None, 1, true), IsRunning));
    var t2 := Terminal(Shell, State(Seen(None, 1, true), Idle));
    LifeOne(a, t, busy);
    LifeTwo(a, t1, KindSet(Shell), ShellStatus(true));
    LifeTwo(a, t2, KindSet(kind), rests);
    LifeThen(a, t2, Dropped, [KindSet(kind), rests]);
    LifeTwo(a, Happen(a, t2, Dropped), KindSet(kind), rests);
  }

  lemma {:induction false} LifeThen(a: Session, t: Terminal, e: Event, events: seq<Event>)
    ensures Life(a, t, [e] + events) == Life(a, Happen(a, t, e), events)
  {
    assert ([e] + events)[1..] == events;
  }

  lemma {:induction false} LifeOne(a: Session, t: Terminal, e: Event)
    ensures Life(a, t, [e]) == Happen(a, t, e)
  {
    var events := [e];
    assert events[1..] == [];
  }

  lemma {:induction false} LifeTwo(a: Session, t: Terminal, e1: Event, e2: Event)
    ensures Life(a, t, [e1, e2]) == Happen(a, Happen(a, t, e1), e2)
  {
    assert [e1, e2] == [e1] + [e2];
    LifeThen(a, t, e1, [e2]);
    LifeOne(a, Happen(a, t, e1), e2);
  }

  // ----- the watcher

  class Watcher {
    const session: Session
    var kind: Kind
    var hook: Option<Hook>
    var at: nat
    var worked: bool
    var status: Status

    function View(): Terminal
      reads this
    {
      Terminal(kind, State(Seen(hook, at, worked), status))
    }

    constructor (session: Session, kind: Kind, status: Status)
      ensures this.session == session && View() == Terminal(kind, State(FRESH, status))
    {
      this.session, this.kind, this.status := session, kind, status;
      hook, at, worked := None, 0, false;
    }

    /** Sets a status found for a session of kind `found`, unless it is of another kind by now or has ended */
    method SetLiveStatus(next: Status, found: Kind)
      modifies this`status
      ensures status == if found == kind then SetLive(old(status), next) else old(status)
    {
      if status != next && found == kind && Live(status) { status := next; }
    }

    method Poll(found: Kind, file: Option<Hook>, now: nat)
      modifies this
      ensures View() == Happen(session, old(View()), Polled(found, Reading(file, now)))
    {
      var read := if session.hooked then file else None;
      var matters := !(read == Some(Input) || read == Some(Working));
      if read == hook && (now == at || !matters) { return; }
      hook := read;
      at := now;
      var screen := if matters then session.shows(now) else Screen(false, false, false);
      var state := StateOf(read, session.hooked, screen);
      var finished := read == Some(Done);
      if !session.hooked {
        finished := worked && state == Resting;
        worked := state == Running;
        if state == Asking { worked := true; }
      }
      SetLiveStatus(AgentStatus(status, state, finished), found);
    }

    /** What the loop does when it finds no agent */
    method Drop()
      modifies this
      ensures View() == Happen(session, old(View()), Dropped)
    {
      hook, at, worked := None, 0, false;
    }

    /** What runs in the foreground of a session that was launched as a shell */
    method SetKind(next: Kind)
      modifies this`kind
      ensures View() == Happen(session, old(View()), KindSet(next))
    {
      if kind == next { return; }
      kind := next;
    }

    /** The status of a shell, set after its kind in a lock scope of its own */
    method SetShellStatus(atPrompt: bool)
      modifies this`status
      ensures View() == Happen(session, old(View()), ShellStatus(atPrompt))
    {
      SetLiveStatus(if atPrompt then Idle else IsRunning, Shell);
    }
  }
}
