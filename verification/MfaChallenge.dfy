/**
 The MFA challenge under concurrency: attempts interleave command by command, and the attempt
 counter and the challenge expire on their own.
 */
module MfaChallenge {
  import opened Options
  import opened RedisStore

  type Ticket = nat

  const MAX_ATTEMPTS: nat := 5

  /**
   The next command of one `complete_mfa_challenge` call; `number` is what its INCR returned, and
   `accepted` whether the DEL follows a right code, so that the call goes on to create a session.
   */
  datatype Attempt =
    | Increment(ticket: Ticket)
    | SetDeadline(ticket: Ticket, number: nat)
    | Compare(ticket: Ticket, number: nat)
    | Discard(ticket: Ticket, accepted: bool)
    | ReadChallenge(ticket: Ticket, number: nat)
    | CheckCode(ticket: Ticket, number: nat)

  /**
   `presented` are the tickets ever issued or used by a client, `checks` counts verified codes and
   `completed` the calls with a right code that are past their DEL.
   */
  datatype World = World(
    now: nat,
    challenges: map<Ticket, Entry<UserId>>,
    counters: map<Ticket, Entry<nat>>,
    attempts: map<nat, Attempt>,
    presented: set<Ticket>,
    checks: multiset<Ticket>,
    completed: multiset<Ticket>)

  datatype Step =
    | Tick(seconds: nat)
    | Issue(ticket: Ticket, user: UserId)
    | Begin(call: nat, ticket: Ticket)
    | Advance(call: nat, eligible: bool, accepted: bool)
    | Abandon(call: nat)

  function Become(w: World, id: nat, attempt: Attempt): World {
    w.(attempts := w.attempts[id := attempt])
  }

  function Return(w: World, id: nat): World {
    w.(attempts := w.attempts - {id})
  }

  /** INCR: a counter that is not there starts at 1 without a deadline; otherwise it keeps its own. */
  function Incremented(counters: map<Ticket, Entry<nat>>, ticket: Ticket, now: nat): map<Ticket, Entry<nat>> {
    match Get(counters, ticket, now)
    case Some(n) => counters[ticket := Entry(n + 1, counters[ticket].deadline)]
    case None => counters[ticket := Entry(1, None)]
  }

  /**
   The next command of call `id`. `eligible` is whether the user row still allows MFA and
   `accepted` is the answer of `verify_user_code`.
   */
  function Perform(w: World, id: nat, eligible: bool, accepted: bool): World
    requires id in w.attempts
  {
    match w.attempts[id]
    case Increment(t) =>
      var counters := Incremented(w.counters, t, w.now);
      var number := counters[t].value;
      Become(w, id, if number == 1 then SetDeadline(t, number) else Compare(t, number)).(counters := counters)
    case SetDeadline(t, n) =>
      Become(w, id, Compare(t, n)).(counters := Expire(w.counters, t, w.now, CHALLENGE_TTL))
    case Compare(t, n) =>
      Become(w, id, if n > MAX_ATTEMPTS then Discard(t, false) else ReadChallenge(t, n))
    case Discard(t, correct) =>
      Return(w, id).(challenges := w.challenges - {t}, counters := w.counters - {t},
                     completed := w.completed + if correct then multiset{t} else multiset{})
    case ReadChallenge(t, n) =>
      if Get(w.challenges, t, w.now).Some? then Become(w, id, CheckCode(t, n)) else Return(w, id)
    case CheckCode(t, n) =>
      if !eligible then Return(w, id)
      else
        var checked := w.(checks := w.checks + multiset{t});
        if accepted || n >= MAX_ATTEMPTS then Become(checked, id, Discard(t, accepted)) else Return(checked, id)
  }

  function Next(w: World, step: Step): World {
    match step
    case Tick(seconds) => w.(now := w.now + seconds)
    case Issue(t, user) =>
      if t in w.presented then w
      else w.(challenges := Put(w.challenges, t, user, w.now, CHALLENGE_TTL), presented := w.presented + {t})
    case Begin(id, t) =>
      if id in w.attempts then w else Become(w, id, Increment(t)).(presented := w.presented + {t})
    case Advance(id, eligible, accepted) =>
      if id !in w.attempts then w else Perform(w, id, eligible, accepted)
    case Abandon(id) => Return(w, id)
  }

  function Run(w: World, steps: seq<Step>): World
    decreases |steps|
  {
    if steps == [] then w else Run(Next(w, steps[0]), steps[1..])
  }

  ghost predicate Initial(w: World) {
    w.challenges == map[] && w.counters == map[] && w.attempts == map[] && w.presented == {}
    && w.checks == multiset{} && w.completed == multiset{}
  }

  // ----- Why the counter cannot restart -----

  ghost predicate Readable(w: World, t: Ticket) {
    Get(w.challenges, t, w.now).Some?
  }

  /**
   Hopeful calls hold one of the first five numbers; checking calls have read the challenge too, and
   passed calls have had their code accepted.
   */
  datatype Phase = Hopeful | Checking | Passed | Idle

  function PhaseOf(attempt: Attempt): Phase {
    match attempt
    case SetDeadline(_, n) => if n <= MAX_ATTEMPTS then Hopeful else Idle
    case Compare(_, n) => if n <= MAX_ATTEMPTS then Hopeful else Idle
    case ReadChallenge(_, n) => if n <= MAX_ATTEMPTS then Hopeful else Idle
    case CheckCode(_, _) => Checking
    case Discard(_, accepted) => if accepted then Passed else Idle
    case _ => Idle
  }

  ghost predicate Holds(attempt: Attempt, t: Ticket, phase: Phase) {
    attempt.ticket == t && PhaseOf(attempt) == phase
  }

  ghost function Calls(attempts: map<nat, Attempt>, t: Ticket, phase: Phase): set<nat> {
    set id | id in attempts && Holds(attempts[id], t, phase)
  }

  /** Codes checked so far or about to be checked. */
  ghost function Admitted(w: World, t: Ticket): nat {
    w.checks[t] + |Calls(w.attempts, t, Checking)|
  }

  /** How many numbers the current counter has handed out. */
  ghost function HandedOut(w: World, t: Ticket): nat {
    match Get(w.counters, t, w.now)
    case Some(n) => n
    case None => 0
  }

  /** While the challenge can be read its counter cannot expire, so no number is handed out twice. */
  ghost predicate CounterOutlives(w: World, t: Ticket) {
    Readable(w, t) ==>
      && w.challenges[t].deadline.Some? && w.challenges[t].deadline.value <= w.now + CHALLENGE_TTL
      && (t in w.counters && w.counters[t].deadline.Some? ==>
                w.challenges[t].deadline.value <= w.counters[t].deadline.value)
  }

  ghost predicate NumbersBound(w: World, t: Ticket) {
    && Admitted(w, t) <= MAX_ATTEMPTS
    && (Readable(w, t) ==>
          && Admitted(w, t) + |Calls(w.attempts, t, Hopeful)| <= HandedOut(w, t)
          && Admitted(w, t) + |Calls(w.attempts, t, Hopeful)| <= MAX_ATTEMPTS)
  }

  ghost predicate Presented(w: World) {
    && w.challenges.Keys <= w.presented && w.counters.Keys <= w.presented
    && (forall id | id in w.attempts :: w.attempts[id].ticket in w.presented)
    && (forall t | t in w.checks :: t in w.presented)
  }

  ghost predicate Invariant(w: World) {
    && Presented(w)
    && (forall id | id in w.attempts && w.attempts[id].ReadChallenge? :: w.attempts[id].number <= MAX_ATTEMPTS)
    && (forall t :: CounterOutlives(w, t) && NumbersBound(w, t))
  }

  lemma CallsWithout(attempts: map<nat, Attempt>, id: nat, t: Ticket, phase: Phase)
    ensures |Calls(attempts, t, phase)| ==
            |Calls(attempts - {id}, t, phase)| + if id in attempts && Holds(attempts[id], t, phase) then 1 else 0
  {
    var all, rest := Calls(attempts, t, phase), Calls(attempts - {id}, t, phase);
    assert rest == all - {id};
  }

  /** The count of one phase when call `id` moves on to `next` or returns. */
  lemma Counts(w: World, id: nat, next: Option<Attempt>, t: Ticket, phase: Phase)
    ensures |Calls(w.attempts, t, phase)| ==
            |Calls(w.attempts - {id}, t, phase)| + if id in w.attempts && Holds(w.attempts[id], t, phase) then 1 else 0
    ensures next.Some? ==>
              |Calls(w.attempts[id := next.value], t, phase)| ==
              |Calls(w.attempts - {id}, t, phase)| + if Holds(next.value, t, phase) then 1 else 0
  {
    CallsWithout(w.attempts, id, t, phase);
    if next.Some? {
      var after := w.attempts[id := next.value];
      CallsWithout(after, id, t, phase);
      assert after - {id} == w.attempts - {id};
    }
  }

  lemma BothCounts(w: World, id: nat, next: Option<Attempt>, t: Ticket)
    ensures var others := w.attempts - {id};
            && |Calls(w.attempts, t, Checking)| == |Calls(others, t, Checking)|
                  + (if id in w.attempts && Holds(w.attempts[id], t, Checking) then 1 else 0)
            && |Calls(w.attempts, t, Hopeful)| == |Calls(others, t, Hopeful)|
                  + (if id in w.attempts && Holds(w.attempts[id], t, Hopeful) then 1 else 0)
    ensures next.Some? ==>
              var others, after := w.attempts - {id}, w.attempts[id := next.value];
              && |Calls(after, t, Checking)| == |Calls(others, t, Checking)|
                    + (if Holds(next.value, t, Checking) then 1 else 0)
              && |Calls(after, t, Hopeful)| == |Calls(others, t, Hopeful)|
                    + (if Holds(next.value, t, Hopeful) then 1 else 0)
  {
    Counts(w, id, next, t, Checking);
    Counts(w, id, next, t, Hopeful);
  }

  lemma CounterCommands(w: World, id: nat, eligible: bool, accepted: bool, t: Ticket)
    requires Invariant(w) && id in w.attempts && (w.attempts[id].Increment? || w.attempts[id].SetDeadline?
        || w.attempts[id].Compare?)
    ensures var w' := Perform(w, id, eligible, accepted); CounterOutlives(w', t) && NumbersBound(w', t)
  {
    var w' := Perform(w, id, eligible, accepted);
    assert CounterOutlives(w, t) && NumbersBound(w, t);
    BothCounts(w, id, Some(w'.attempts[id]), t);
  }

  lemma ChallengeCommands(w: World, id: nat, eligible: bool, accepted: bool, t: Ticket)
    requires Invariant(w) && id in w.attempts && (w.attempts[id].Discard? || w.attempts[id].ReadChallenge?
        || w.attempts[id].CheckCode?)
    ensures var w' := Perform(w, id, eligible, accepted); CounterOutlives(w', t) && NumbersBound(w', t)
  {
    var w' := Perform(w, id, eligible, accepted);
    assert CounterOutlives(w, t) && NumbersBound(w, t);
    BothCounts(w, id, if id in w'.attempts then Some(w'.attempts[id]) else None, t);
  }

  lemma NextKeepsTicket(w: World, step: Step, t: Ticket)
    requires Invariant(w)
    ensures CounterOutlives(Next(w, step), t) && NumbersBound(Next(w, step), t)
  {
    assert CounterOutlives(w, t) && NumbersBound(w, t);
    match step {
      case Advance(id, eligible, accepted) =>
        if id in w.attempts {
          if w.attempts[id].Increment? || w.attempts[id].SetDeadline? || w.attempts[id].Compare? {
            CounterCommands(w, id, eligible, accepted, t);
          } else {
            ChallengeCommands(w, id, eligible, accepted, t);
          }
        }
      case Begin(id, ticket) => BothCounts(w, id, Some(Increment(ticket)), t);
      case Abandon(id) => BothCounts(w, id, None, t);
      case Issue(ticket, _) =>
        if t == ticket && t !in w.presented {
          assert Calls(w.attempts, t, Hopeful) == {} && Calls(w.attempts, t, Checking) == {};
        }
      case Tick(_) =>
    }
  }

  lemma NextKeepsPresented(w: World, step: Step)
    requires Presented(w)
    ensures Presented(Next(w, step))
  {
    hide Perform;
    if step.Advance? && step.call in w.attempts {
      PerformKeepsPresented(w, step.call, step.eligible, step.accepted);
    }
  }

  lemma PerformKeepsPresented(w: World, id: nat, eligible: bool, accepted: bool)
    requires Presented(w) && id in w.attempts
    ensures Presented(Perform(w, id, eligible, accepted))
  {
    hide Get;
    assert w.attempts[id].ticket in w.presented;
  }

  lemma NextKeepsNumbers(w: World, step: Step)
    requires forall id | id in w.attempts && w.attempts[id].ReadChallenge? :: w.attempts[id].number <= MAX_ATTEMPTS
    ensures forall id | id in Next(w, step).attempts && Next(w, step).attempts[id].ReadChallenge? ::
        Next(w, step).attempts[id].number <= MAX_ATTEMPTS
  {
  }

  lemma NextKeepsInvariant(w: World, step: Step)
    requires Invariant(w)
    ensures Invariant(Next(w, step))
  {
    hide Presented, CounterOutlives, NumbersBound, Next;
    NextKeepsPresented(w, step);
    NextKeepsNumbers(w, step);
    forall t ensures CounterOutlives(Next(w, step), t) && NumbersBound(Next(w, step), t) {
      NextKeepsTicket(w, step, t);
    }
  }

  lemma {:induction false} RunKeepsInvariant(w: World, steps: seq<Step>)
    requires Invariant(w)
    ensures Invariant(Run(w, steps))
    decreases |steps|
  {
    if steps != [] {
      NextKeepsInvariant(w, steps[0]);
      RunKeepsInvariant(Next(w, steps[0]), steps[1..]);
    }
  }

  /** At most five codes are ever checked against one ticket, in every interleaving. */
  lemma FiveCodesPerTicket(start: World, steps: seq<Step>, t: Ticket)
    requires Initial(start)
    ensures Run(start, steps).checks[t] <= 5
  {
    assert forall t :: Calls(start.attempts, t, Checking) == {} && Calls(start.attempts, t, Hopeful) == {};
    RunKeepsInvariant(start, steps);
    assert NumbersBound(Run(start, steps), t);
  }

  lemma {:induction false} RunAppend(w: World, a: seq<Step>, b: seq<Step>)
    ensures Run(w, a + b) == Run(Run(w, a), b)
    decreases |a|
  {
    if a == [] {
      assert a + b == b;
    } else {
      assert (a + b)[1..] == a[1..] + b;
      RunAppend(Next(w, a[0]), a[1..], b);
    }
  }

  lemma RunOne(w: World, step: Step)
    ensures Run(w, [step]) == Next(w, step)
  {
    assert Run(Next(w, step), []) == Next(w, step);
  }

  lemma RunThen(w: World, steps: seq<Step>, step: Step)
    ensures Run(w, steps + [step]) == Next(Run(w, steps), step)
  {
    RunAppend(w, steps, [step]);
    RunOne(Run(w, steps), step);
  }

  /** The first commands of a call that runs alone, up to the comparison of its number. */
  lemma ReachCompare(w: World, id: nat, t: Ticket) returns (steps: seq<Step>)
    requires Readable(w, t) && id !in w.attempts
    ensures var w' := Run(w, steps); var n := HandedOut(w, t) + 1;
            && w'.attempts == w.attempts[id := Compare(t, n)]
            && w'.checks == w.checks && w'.completed == w.completed && w'.now == w.now
            && Readable(w', t) && HandedOut(w', t) == n
  {
    hide Run;
    var go := Advance(id, true, false);
    RunOne(w, Begin(id, t));
    steps := [Begin(id, t)] + [go];
    RunThen(w, [Begin(id, t)], go);
    if Run(w, steps).attempts[id].SetDeadline? {
      RunThen(w, steps, go);
      steps := steps + [go];
    }
  }

  /** And on to the check of the code. */
  lemma ReachCheck(w: World, id: nat, t: Ticket) returns (steps: seq<Step>)
    requires Readable(w, t) && id !in w.attempts && HandedOut(w, t) < MAX_ATTEMPTS
    ensures var w' := Run(w, steps); var n := HandedOut(w, t) + 1;
            && w'.attempts == w.attempts[id := CheckCode(t, n)]
            && w'.checks == w.checks && w'.completed == w.completed && w'.now == w.now
            && Readable(w', t) && HandedOut(w', t) == n
  {
    hide Run;
    var go := Advance(id, true, false);
    steps := ReachCompare(w, id, t);
    RunThen(w, steps, go);
    RunThen(w, steps + [go], go);
    steps := steps + [go] + [go];
  }

  /** The bound is reached: wrong codes sent one after the other are each checked, up to the fifth. */
  lemma {:induction false} FiveCodesReached(w: World, id: nat, t: Ticket) returns (steps: seq<Step>)
    requires Readable(w, t) && id !in w.attempts && HandedOut(w, t) <= 5
    ensures Run(w, steps).checks[t] == w.checks[t] + 5 - HandedOut(w, t)
    decreases MAX_ATTEMPTS - HandedOut(w, t)
  {
    if HandedOut(w, t) == MAX_ATTEMPTS {
      steps := [];
    } else {
      steps := ReachCheck(w, id, t);
      var go := Advance(id, true, false);
      var before := Run(w, steps);
      var after := Next(before, go);
      RunOne(before, go);
      RunAppend(w, steps, [go]);
      steps := steps + [go];
      if HandedOut(w, t) + 1 < MAX_ATTEMPTS {
        assert after.attempts == w.attempts;
        var rest := FiveCodesReached(after, id, t);
        RunAppend(w, steps, rest);
        steps := steps + rest;
      }
    }
  }

  // ----- A ticket is spent once -----

  /** The challenge is gone, and the ticket is not one that could be issued again. */
  ghost predicate Spent(w: World, t: Ticket) {
    t in w.presented && t !in w.challenges
  }

  /** What a command does to its own call, to the codes checked and to the completions of a ticket. */
  lemma CommandCounts(w: World, id: nat, eligible: bool, accepted: bool, t: Ticket)
    requires id in w.attempts
    ensures var w' := Perform(w, id, eligible, accepted);
            var attempt := w.attempts[id];
            var own := attempt.ticket == t;
            && w'.attempts == (if id in w'.attempts then w.attempts[id := w'.attempts[id]] else w.attempts - {id})
            && w'.presented == w.presented && w'.challenges.Keys <= w.challenges.Keys
            && (id in w'.attempts ==> w'.attempts[id].ticket == attempt.ticket)
            && (own && id in w'.attempts && PhaseOf(w'.attempts[id]) == Checking ==> Readable(w, t))
            && w'.checks[t] == w.checks[t] + (if own && attempt.CheckCode? && eligible then 1 else 0)
            && w'.completed[t] == w.completed[t] + (if own && PhaseOf(attempt) == Passed then 1 else 0)
            && (own && PhaseOf(attempt) == Passed ==> t !in w'.challenges && id !in w'.attempts)
            && (own && id in w'.attempts && PhaseOf(w'.attempts[id]) == Passed ==> attempt.CheckCode? && eligible)
  {
    hide Incremented, Expire;
  }

  /** Only calls that have read the challenge can still check a code against a spent ticket. */
  lemma SpentAfterCommand(w: World, id: nat, eligible: bool, accepted: bool, t: Ticket)
    requires Spent(w, t) && id in w.attempts
    ensures var w' := Perform(w, id, eligible, accepted); Spent(w', t) && Admitted(w', t) <= Admitted(w, t)
  {
    hide Perform, Calls;
    var w' := Perform(w, id, eligible, accepted);
    CommandCounts(w, id, eligible, accepted, t);
    Counts(w, id, if id in w'.attempts then Some(w'.attempts[id]) else None, t, Checking);
  }

  lemma SpentAfterStep(w: World, step: Step, t: Ticket)
    requires Spent(w, t)
    ensures Spent(Next(w, step), t) && Admitted(Next(w, step), t) <= Admitted(w, t)
  {
    hide Perform, Calls;
    match step {
      case Advance(id, eligible, accepted) =>
        if id in w.attempts {
          SpentAfterCommand(w, id, eligible, accepted, t);
        }
      case Begin(id, ticket) => Counts(w, id, Some(Increment(ticket)), t, Checking);
      case Abandon(id) => Counts(w, id, None, t, Checking);
      case _ =>
    }
  }

  lemma {:induction false} SpentAfterRun(w: World, steps: seq<Step>, t: Ticket)
    requires Spent(w, t)
    ensures Spent(Run(w, steps), t) && Admitted(Run(w, steps), t) <= Admitted(w, t)
    decreases |steps|
  {
    hide Next, Spent, Admitted;
    if steps != [] {
      SpentAfterStep(w, steps[0], t);
      SpentAfterRun(Next(w, steps[0]), steps[1..], t);
    }
  }

  /** Completed tickets are spent, and every completion is one of the codes checked. */
  ghost predicate CompletionsOk(w: World) {
    forall t ::
      && (t in w.completed ==> Spent(w, t))
      && w.completed[t] + |Calls(w.attempts, t, Passed)| <= w.checks[t]
  }

  lemma NextKeepsCompletions(w: World, step: Step)
    requires Presented(w) && CompletionsOk(w)
    ensures CompletionsOk(Next(w, step))
  {
    var w' := Next(w, step);
    forall t
      ensures t in w'.completed ==> Spent(w', t)
      ensures w'.completed[t] + |Calls(w'.attempts, t, Passed)| <= w'.checks[t]
    {
      CompletionAfterStep(w, step, t);
    }
  }

  lemma CompletionAfterStep(w: World, step: Step, t: Ticket)
    requires Presented(w) && (t in w.completed ==> Spent(w, t))
    requires w.completed[t] + |Calls(w.attempts, t, Passed)| <= w.checks[t]
    ensures var w' := Next(w, step);
            && (t in w'.completed ==> Spent(w', t))
            && w'.completed[t] + |Calls(w'.attempts, t, Passed)| <= w'.checks[t]
  {
    hide Perform, Calls;
    var w' := Next(w, step);
    match step {
      case Advance(id, eligible, accepted) =>
        if id in w.attempts {
          CommandCounts(w, id, eligible, accepted, t);
          Counts(w, id, if id in w'.attempts then Some(w'.attempts[id]) else None, t, Passed);
        }
      case Begin(id, ticket) => Counts(w, id, Some(Increment(ticket)), t, Passed);
      case Abandon(id) => Counts(w, id, None, t, Passed);
      case _ =>
    }
  }

  lemma {:induction false} RunKeepsCompletions(w: World, steps: seq<Step>)
    requires Presented(w) && CompletionsOk(w)
    ensures Presented(Run(w, steps)) && CompletionsOk(Run(w, steps))
    decreases |steps|
  {
    hide Next, Presented, CompletionsOk;
    if steps != [] {
      NextKeepsPresented(w, steps[0]);
      NextKeepsCompletions(w, steps[0]);
      RunKeepsCompletions(Next(w, steps[0]), steps[1..]);
    }
  }

  lemma InitialCompletions(w: World)
    requires Initial(w)
    ensures Presented(w) && CompletionsOk(w)
  {
    assert forall t :: Calls(w.attempts, t, Passed) == {};
  }

  /**
   Once a call whose code was accepted is past its DEL the ticket is never readable again, codes are
   checked against it only by calls that had read the challenge before, and it is completed by no
   more calls than codes are checked against it.
   */
  lemma CompletedIsSpent(start: World, before: seq<Step>, after: seq<Step>, t: Ticket)
    requires Initial(start) && t in Run(start, before).completed
    ensures var w := Run(start, before);
            var w' := Run(w, after);
            && !Readable(w', t)
            && w'.checks[t] <= w.checks[t] + |Calls(w.attempts, t, Checking)|
            && w'.completed[t] <= w'.checks[t]
  {
    var w := Run(start, before);
    InitialCompletions(start);
    RunKeepsCompletions(start, before);
    RunKeepsCompletions(w, after);
    SpentAfterRun(w, after, t);
  }

  /** A call about to DEL leaves the ticket spent, unless it is abandoned before. */
  lemma {:induction false} DiscardSpends(w: World, id: nat, t: Ticket, steps: seq<Step>)
    requires Presented(w)
    requires Spent(w, t) || (id in w.attempts && w.attempts[id].Discard? && w.attempts[id].ticket == t)
    requires Abandon(id) !in steps
    ensures id !in Run(w, steps).attempts ==> Spent(Run(w, steps), t)
    decreases |steps|
  {
    hide Spent, Presented;
    if steps != [] {
      DiscardAfterStep(w, id, t, steps[0]);
      NextKeepsPresented(w, steps[0]);
      DiscardSpends(Next(w, steps[0]), id, t, steps[1..]);
    }
  }

  lemma DiscardAfterStep(w: World, id: nat, t: Ticket, step: Step)
    requires Presented(w) && step != Abandon(id)
    requires Spent(w, t) || (id in w.attempts && w.attempts[id].Discard? && w.attempts[id].ticket == t)
    ensures var w' := Next(w, step);
            Spent(w', t) || (id in w'.attempts && w'.attempts[id].Discard? && w'.attempts[id].ticket == t)
  {
  }

  /**
   A call whose code is accepted, whose code is the fifth, or whose number is past five does not
   return, unless it is abandoned, while the ticket can be read.
   */
  lemma SpentOnReturn(start: World, before: seq<Step>, id: nat, accepted: bool, steps: seq<Step>)
    requires Initial(start)
    requires var w := Run(start, before);
             && id in w.attempts
             && ((w.attempts[id].CheckCode? && (accepted || w.attempts[id].number >= 5))
                 || (w.attempts[id].Compare? && w.attempts[id].number > 5))
    requires Abandon(id) !in steps
    ensures var w := Run(start, before);
            var w' := Run(Next(w, Advance(id, true, accepted)), steps);
            id !in w'.attempts ==> !Readable(w', w.attempts[id].ticket)
  {
    hide Run;
    var w := Run(start, before);
    InitialCompletions(start);
    RunKeepsCompletions(start, before);
    NextKeepsPresented(w, Advance(id, true, accepted));
    DiscardSpends(Next(w, Advance(id, true, accepted)), id, w.attempts[id].ticket, steps);
  }

  /** While the user of no call is eligible no code is checked. */
  lemma {:induction false} IneligibleIsNotChecked(w: World, steps: seq<Step>)
    requires forall step | step in steps && step.Advance? :: !step.eligible
    ensures Run(w, steps).checks == w.checks
    decreases |steps|
  {
    if steps != [] {
      IneligibleIsNotChecked(Next(w, steps[0]), steps[1..]);
    }
  }

  /** A new ticket can be read for exactly CHALLENGE_TTL seconds, if nothing uses it. */
  lemma TicketLasts(w: World, t: Ticket, user: UserId, seconds: nat)
    requires t !in w.presented
    ensures Readable(Run(w, [Issue(t, user), Tick(seconds)]), t) <==> seconds < CHALLENGE_TTL
  {
    RunOne(w, Issue(t, user));
    RunThen(w, [Issue(t, user)], Tick(seconds));
    assert [Issue(t, user)] + [Tick(seconds)] == [Issue(t, user), Tick(seconds)];
  }

  /** It happens: from an empty store a ticket is issued, a right code is checked and the ticket completed. */
  lemma CompletionReached(start: World, id: nat, t: Ticket, user: UserId) returns (steps: seq<Step>)
    requires Initial(start)
    ensures var w := Run(start, steps);
            w.attempts == map[] && w.completed == multiset{t} && w.checks == multiset{t} && w.now == start.now
  {
    hide Run;
    var pass := Advance(id, true, true);
    RunOne(start, Issue(t, user));
    var issued := Run(start, [Issue(t, user)]);
    var rest := ReachCheck(issued, id, t);
    steps := [Issue(t, user)] + rest;
    RunAppend(start, [Issue(t, user)], rest);
    RunThen(start, steps, pass);
    RunThen(start, steps + [pass], pass);
    steps := steps + [pass] + [pass];
  }
}
