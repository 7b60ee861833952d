/** The stored counts over whole runs, and what happens when one can no longer be stored. */
module RelayFailures {
  import opened Relay
  import opened RelayRuns
  import opened RelayTurns
  import Breakers

  // ---- what is stored ----

  /** Marked failures of a partner since its last marked success. */
  function FailuresInARow(marks: seq<Mark>, url: string): nat {
    if marks == [] then 0
    else
      var last := marks[|marks| - 1];
      var before := FailuresInARow(marks[..|marks| - 1], url);
      if last.url != url then before else if last.ok then 0 else before + 1
  }

  /** What of them can be stored. */
  function StoredCount(c: Config, marks: seq<Mark>, url: string): nat {
    var n := FailuresInARow(marks, url);
    if n <= CountLimit(c.settings) then n else CountLimit(c.settings)
  }

  /** When the failure was marked that was counted last. */
  function LastCounted(c: Config, marks: seq<Mark>, url: string): real {
    if marks == [] then 0.0
    else
      var last := marks[|marks| - 1];
      if last.url == url && FailuresInARow(marks, url) <= CountLimit(c.settings) then last.at
      else LastCounted(c, marks[..|marks| - 1], url)
  }

  ghost predicate StoredOk(c: Config, s: State, url: string) {
    var n := StoredCount(c, s.marks, url);
    && Fails(s.failures, url) == n && (url in s.failures <==> n >= 1)
    && (url in s.failures && n >= c.settings.maxRetry ==>
          s.failures[url].until == LastCounted(c, s.marks, url) + OpenPeriod(c.settings, n))
  }

  /** What one more mark does to the counts. */
  lemma MoreMarks(c: Config, marks: seq<Mark>, x: Mark, u: string)
    ensures FailuresInARow(marks + [x], u) == if x.url != u then FailuresInARow(marks, u) else if x.ok then 0 else FailuresInARow(marks, u) + 1
    ensures LastCounted(c, marks + [x], u) ==
            if x.url == u && FailuresInARow(marks + [x], u) <= CountLimit(c.settings) then x.at else LastCounted(c, marks, u)
  {
    assert (marks + [x])[..|marks|] == marks;
  }

  lemma MarkingKeepsStored(c: Config, s: State, url: string, ok: bool, now: real, u: string)
    requires StoredOk(c, s, u)
    ensures StoredOk(c, Marking(c, s, url, ok, now), u)
  {
    MoreMarks(c, s.marks, Mark(url, ok, now), u);
    hide Period, FailuresInARow, LastCounted;
    if u != url {
      OtherMark(c, s.failures, url, ok, now, u);
    }
  }

  lemma OtherMark(c: Config, failures: Failures, url: string, ok: bool, now: real, u: string)
    requires u != url
    ensures u in Marked(c.settings, failures, url, ok, now) <==> u in failures
    ensures u in failures ==> Marked(c.settings, failures, url, ok, now)[u] == failures[u]
  {
    hide Period;
  }

  /** The marks of a step: none, or one, stored as `_mark_ok` and `_mark_fail` store it. */
  ghost predicate Marks(c: Config, s: State, after: State) {
    || (after.marks == s.marks && after.failures == s.failures)
    || exists url, ok, now :: MarksOne(c, s, after, url, ok, now)
  }

  ghost predicate MarksOne(c: Config, s: State, after: State, url: string, ok: bool, now: real) {
    after.marks == s.marks + [Mark(url, ok, now)] && after.failures == Marked(c.settings, s.failures, url, ok, now)
  }

  lemma TaskFailedMarks(c: Config, s: State, i: nat, now: real)
    requires ConfigOk(c) && InTurn(c, s, i)
    ensures Marks(c, s, TaskFailed(c, s, i, now))
  {
    hide Marked, Raises, Enqueue, Evicted;
    var after := TaskFailed(c, s, i, now);
    assert MarksOne(c, s, after, TurnUrl(c, s, i), false, now);
  }

  lemma DispatchMarks(c: Config, s: State, step: Step)
    requires ConfigOk(c) && (step.DispatchOn? || step.DispatchDone? || step.DispatchLeave?)
    ensures Marks(c, s, Next(c, s, step))
  {
    hide Marked, Raises, Available, Enqueue, Evicted, TaskFailed;
    var i, after := step.i, Next(c, s, step);
    if InTurn(c, s, i) {
      match step {
        case DispatchOn(_, now) =>
        case DispatchDone(_, answer, now) =>
          if s.tasks[i].phase.Waiting? {
            TaskFailedMarks(c, TaskPosted(c, s, i, false), i, now);
            PostedMarks(c, s, i, now);
            assert !answer.Failure? ==> MarksOne(c, s, after, TurnUrl(c, s, i), answer.Success?, now);
          }
        case DispatchLeave(_, now) =>
          if s.tasks[i].phase.Leaving? {
            TaskFailedMarks(c, s, i, now);
            assert !s.tasks[i].phase.raised && s.tasks[i].phase.ok ==> MarksOne(c, s, after, TurnUrl(c, s, i), true, now);
          }
      }
    }
  }

  /** Logging the post first changes neither. */
  lemma PostedMarks(c: Config, s: State, i: nat, now: real)
    requires ConfigOk(c) && InTurn(c, s, i)
    ensures var after := TaskFailed(c, TaskPosted(c, s, i, false), i, now);
            Marks(c, s, after)
  {
    var posted := TaskPosted(c, s, i, false);
    var after := TaskFailed(c, posted, i, now);
    TaskFailedMarks(c, posted, i, now);
    hide Marked, Raises, TaskFailed;
    forall url, ok, at | MarksOne(c, posted, after, url, ok, at) ensures MarksOne(c, s, after, url, ok, at) {
    }
  }

  lemma DrainFailedMarks(c: Config, s: State, now: real)
    requires InHand(s) && s.drain.partner < |c.partners|
    ensures Marks(c, s, DrainFailed(c, s, now))
  {
    hide Marked, Raises;
    assert MarksOne(c, s, DrainFailed(c, s, now), c.partners[s.drain.partner], false, now);
  }

  lemma DrainAnsweredMarks(c: Config, s: State, answer: Answer, now: real)
    requires InHand(s) && s.drain.partner < |c.partners|
    ensures Marks(c, s, DrainAnswered(c, s, answer, now))
  {
    hide Marked, Raises;
    assert MarksOne(c, s, DrainAnswered(c, s, answer, now), c.partners[s.drain.partner], answer.Success?, now);
  }

  lemma OtherMarks(c: Config, s: State, step: Step)
    requires ConfigOk(c) && (step.Spawn? || step.DrainWake? || DrainStep(step))
    ensures Marks(c, s, Next(c, s, step))
  {
    hide Marked, Raises, Available, Enqueue, Evicted, DrainFailed, DrainAnswered;
    if InHand(s) && s.drain.partner < |c.partners| {
      if step.DrainDone? {
        DrainAnsweredMarks(c, s, step.answer, step.now);
      } else if step.DrainLeave? {
        DrainFailedMarks(c, s, step.now);
      }
    }
  }

  lemma NextMarks(c: Config, s: State, step: Step)
    requires ConfigOk(c)
    ensures Marks(c, s, Next(c, s, step))
  {
    if step.DispatchOn? || step.DispatchDone? || step.DispatchLeave? {
      DispatchMarks(c, s, step);
    } else {
      OtherMarks(c, s, step);
    }
  }

  lemma SameStored(c: Config, s: State, after: State, url: string)
    requires StoredOk(c, s, url) && after.marks == s.marks && after.failures == s.failures
    ensures StoredOk(c, after, url)
  {
  }

  lemma NextKeepsStored(c: Config, s: State, step: Step, u: string)
    requires ConfigOk(c) && StoredOk(c, s, u)
    ensures StoredOk(c, Next(c, s, step), u)
  {
    hide Next, StoredOk;
    var after := Next(c, s, step);
    NextMarks(c, s, step);
    if after.marks == s.marks && after.failures == s.failures {
      SameStored(c, s, after, u);
    } else {
      var url, ok, now :| MarksOne(c, s, after, url, ok, now);
      MarkingKeepsStored(c, s, url, ok, now, u);
      SameStored(c, Marking(c, s, url, ok, now), after, u);
    }
  }

  /** In every interleaving the stored count of a partner is its failures since the last success, up
      to the largest count that can be stored. */
  lemma {:induction false} StoredCountIsFailuresInARow(c: Config, steps: seq<Step>, url: string)
    requires ConfigOk(c)
    ensures Fails(Run(c, START, steps).failures, url) == StoredCount(c, Run(c, START, steps).marks, url)
    ensures StoredOk(c, Run(c, START, steps), url)
  {
    if steps != [] {
      StoredCountIsFailuresInARow(c, steps[..|steps| - 1], url);
      NextKeepsStored(c, Run(c, START, steps[..|steps| - 1]), steps[|steps| - 1], url);
    }
  }

  /** In every interleaving a partner is skipped exactly while it has failed `maxRetry` times or more
      in a row and the period opened by the last counted failure has not passed: `breakSeconds` times
      1, 2, 4, 8, and 16 from the fifth on. */
  lemma SkippedIff(c: Config, steps: seq<Step>, url: string, now: real)
    requires ConfigOk(c)
    ensures var s := Run(c, START, steps);
            var n := StoredCount(c, s.marks, url);
            && (Available(c.settings, s.failures, url, now) <==>
                  n == 0 || n < c.settings.maxRetry || now > LastCounted(c, s.marks, url) + OpenPeriod(c.settings, n))
            && (c.settings.breakSeconds >= 0.0 && n >= c.settings.maxRetry ==>
                  OpenPeriod(c.settings, n) == c.settings.breakSeconds * Breakers.Factor(n - c.settings.maxRetry) as real)
  {
    hide Run, StoredOk, OpenPeriod;
    StoredCountIsFailuresInARow(c, steps, url);
    StoredSkips(c, Run(c, START, steps), url, now);
    var n := StoredCount(c, Run(c, START, steps).marks, url);
    if c.settings.breakSeconds >= 0.0 && n >= c.settings.maxRetry {
      OpenFor(c.settings, n);
    }
  }

  lemma StoredSkips(c: Config, s: State, url: string, now: real)
    requires StoredOk(c, s, url)
    ensures var n := StoredCount(c, s.marks, url);
            Available(c.settings, s.failures, url, now) <==>
              n == 0 || n < c.settings.maxRetry || now > LastCounted(c, s.marks, url) + OpenPeriod(c.settings, n)
  {
    hide Period, LastCounted, FailuresInARow;
  }

  lemma OpenFor(s: Settings, n: nat)
    requires s.breakSeconds >= 0.0 && s.maxRetry <= n <= CountLimit(s)
    ensures OpenPeriod(s, n) == s.breakSeconds * Breakers.Factor(n - s.maxRetry) as real
  {
    hide Period;
    Breakers.PeriodFactor(s, n - s.maxRetry);
  }

  // ---- exactly when an error ends a task or the drain loop ----

  datatype Actor = DispatchTask(i: nat) | DrainLoop

  ghost predicate Dead(s: State, a: Actor) {
    match a
    case DispatchTask(i) => i < |s.tasks| && s.tasks[i].dead
    case DrainLoop => s.drain.dead
  }

  /** A handler marks a failure: of a post that failed, or of an answer whose own mark raised. */
  datatype Handled = Nothing | FailureOf(actor: Actor, url: string)

  function HandledBy(c: Config, s: State, step: Step): Handled {
    match step
    case DispatchDone(i, answer, _) =>
      if InTurn(c, s, i) && s.tasks[i].phase.Waiting? && answer.Failure? then FailureOf(DispatchTask(i), TurnUrl(c, s, i))
      else Nothing
    case DispatchLeave(i, _) =>
      if InTurn(c, s, i) && s.tasks[i].phase.Leaving? && s.tasks[i].phase.raised then
        FailureOf(DispatchTask(i), TurnUrl(c, s, i))
      else Nothing
    case DrainDone(answer, _) =>
      if InHand(s) && s.drain.phase.Waiting? && s.drain.partner < |c.partners| && answer.Failure? then
        FailureOf(DrainLoop, c.partners[s.drain.partner])
      else Nothing
    case DrainLeave(_) =>
      if InHand(s) && s.drain.phase.Leaving? && s.drain.partner < |c.partners| && s.drain.phase.raised then
        FailureOf(DrainLoop, c.partners[s.drain.partner])
      else Nothing
    case _ => Nothing
  }

  /** Every post that ends is marked in the same step as it ended, and a handler marks a failure of the
      partner of its post. */
  lemma PostsAreMarked(c: Config, s: State, step: Step)
    requires ConfigOk(c)
    ensures var after := Next(c, s, step);
            && (after.posts != s.posts ==>
                  && (step.DispatchDone? || step.DrainDone?) && |after.posts| == |s.posts| + 1
                  && var p := after.posts[|s.posts|];
                     p.ok == step.answer.Success? && after.marks == s.marks + [Mark(p.url, p.ok, step.now)])
            && (HandledBy(c, s, step).FailureOf? ==> after.marks == s.marks + [Mark(HandledBy(c, s, step).url, false, step.now)])
            && (after.posts == s.posts && HandledBy(c, s, step).Nothing? ==>
                  after.marks == s.marks || (step.DispatchLeave? && InTurn(c, s, step.i) && after.marks == s.marks + [Mark(TurnUrl(c, s, step.i), true, step.now)]))
  {
    hide Marked, Raises, Available, Enqueue, Evicted, TurnOver;
    if step.DispatchOn? || step.DispatchDone? || step.DispatchLeave? {
      if InTurn(c, s, step.i) {
        TurnKeepsLog(c, s, step);
      }
    }
  }

  lemma TurnKeepsLog(c: Config, s: State, step: Step)
    requires ConfigOk(c)
    ensures forall t: State, i: nat, ok: bool | InTurn(c, t, i) :: TurnOver(c, t, i, ok).posts == t.posts && TurnOver(c, t, i, ok).marks == t.marks
  {
    hide Enqueue, Evicted;
  }

  /** A handler of `a` marks a failure of a partner that has, since its last success, failed at least
      as often as can be counted: 1023 times more than `maxRetry`. */
  predicate Kills(c: Config, s: State, step: Step, a: Actor) {
    var handled := HandledBy(c, s, step);
    handled.FailureOf? && handled.actor == a && FailuresInARow(s.marks, handled.url) >= c.settings.maxRetry + 1023
  }

  ghost predicate KilledIn(c: Config, steps: seq<Step>, a: Actor)
    requires ConfigOk(c)
  {
    exists k | 0 <= k < |steps| :: KilledAt(c, steps, k, a)
  }

  predicate KilledAt(c: Config, steps: seq<Step>, k: nat, a: Actor)
    requires ConfigOk(c) && k < |steps|
  {
    Kills(c, Run(c, START, steps[..k]), steps[k], a)
  }

  lemma TaskFailedDeaths(c: Config, s: State, i: nat, now: real, a: Actor)
    requires ConfigOk(c) && InTurn(c, s, i)
    ensures Dead(TaskFailed(c, s, i, now), a) <==>
            Dead(s, a) || (a == DispatchTask(i) && Raises(c.settings, s.failures, TurnUrl(c, s, i), false))
  {
    hide Marked, Raises, Enqueue, Evicted;
  }

  lemma DispatchDeaths(c: Config, s: State, step: Step, a: Actor)
    requires ConfigOk(c) && (forall u :: StoredOk(c, s, u))
    requires step.DispatchOn? || step.DispatchDone? || step.DispatchLeave?
    ensures Dead(Next(c, s, step), a) <==> Dead(s, a) || Kills(c, s, step, a)
  {
    hide Marked, Available, Enqueue, Evicted, TaskFailed, FailuresInARow, LastCounted, OpenPeriod;
    var i := step.i;
    if InTurn(c, s, i) {
      assert StoredOk(c, s, TurnUrl(c, s, i));
      TaskFailedDeaths(c, s, i, step.now, a);
      TaskFailedDeaths(c, TaskPosted(c, s, i, false), i, step.now, a);
    }
  }

  lemma OtherDeaths(c: Config, s: State, step: Step, a: Actor)
    requires ConfigOk(c) && (forall u :: StoredOk(c, s, u))
    requires step.Spawn? || step.DrainWake? || DrainStep(step)
    ensures Dead(Next(c, s, step), a) <==> Dead(s, a) || Kills(c, s, step, a)
  {
    hide Marked, Available, Enqueue, Evicted, FailuresInARow, LastCounted, OpenPeriod;
    if InHand(s) && s.drain.partner < |c.partners| {
      assert StoredOk(c, s, c.partners[s.drain.partner]);
    }
  }

  lemma NextDeaths(c: Config, s: State, step: Step, a: Actor)
    requires ConfigOk(c) && (forall u :: StoredOk(c, s, u))
    ensures Dead(Next(c, s, step), a) <==> Dead(s, a) || Kills(c, s, step, a)
  {
    if step.DispatchOn? || step.DispatchDone? || step.DispatchLeave? {
      DispatchDeaths(c, s, step, a);
    } else {
      OtherDeaths(c, s, step, a);
    }
  }

  /** In every interleaving an error has ended a task, or the drain loop, exactly when some step of
      the run was a handler of it marking a failure of a partner that could be counted no more. */
  lemma {:induction false} DiesIff(c: Config, steps: seq<Step>, a: Actor)
    requires ConfigOk(c)
    ensures Dead(Run(c, START, steps), a) <==> KilledIn(c, steps, a)
  {
    hide Next, Kills;
    if steps != [] {
      var n := |steps| - 1;
      var front, step := steps[..n], steps[n];
      var s := Run(c, START, front);
      DiesIff(c, front, a);
      forall u ensures StoredOk(c, s, u) {
        StoredCountIsFailuresInARow(c, front, u);
      }
      NextDeaths(c, s, step, a);
      forall k | 0 <= k < n ensures KilledAt(c, front, k, a) <==> KilledAt(c, steps, k, a) {
        assert front[..k] == steps[..k];
      }
      assert KilledAt(c, steps, n, a) <==> Kills(c, s, step, a);
    }
  }

  // ---- what such an error costs ----

  /** A task that an error ended had a partner's turn at hand. */
  ghost predicate DeadInTurn(c: Config, s: State) {
    forall i | 0 <= i < |s.tasks| && s.tasks[i].dead :: |s.tasks[i].outcomes| < |c.partners|
  }

  /** The other tasks stay as they are, and task `i` is ended only in the turn of a partner. */
  ghost predicate OnlyTask(c: Config, s: State, after: State, i: nat) {
    && |after.tasks| == |s.tasks| && (forall j | 0 <= j < |s.tasks| && j != i :: after.tasks[j] == s.tasks[j])
    && (i < |s.tasks| && after.tasks[i].dead ==> s.tasks[i].dead || |after.tasks[i].outcomes| < |c.partners|)
    && (i < |s.tasks| && s.tasks[i].dead ==> after.tasks[i] == s.tasks[i])
  }

  lemma FailedOnlyTask(c: Config, s: State, i: nat, now: real)
    requires ConfigOk(c) && InTurn(c, s, i)
    ensures OnlyTask(c, s, TaskFailed(c, s, i, now), i)
  {
    hide Marked, Raises, Enqueue, Evicted;
  }

  lemma DispatchOnlyTask(c: Config, s: State, step: Step)
    requires ConfigOk(c) && (step.DispatchOn? || step.DispatchDone? || step.DispatchLeave?)
    ensures OnlyTask(c, s, Next(c, s, step), step.i)
  {
    hide Marked, Raises, Available, Enqueue, Evicted, TaskFailed;
    if InTurn(c, s, step.i) {
      FailedOnlyTask(c, s, step.i, step.now);
      FailedOnlyTask(c, TaskPosted(c, s, step.i, false), step.i, step.now);
    }
  }

  lemma NextDeadInTurn(c: Config, s: State, step: Step)
    requires ConfigOk(c) && DeadInTurn(c, s)
    ensures DeadInTurn(c, Next(c, s, step))
  {
    hide Next;
    if step.DispatchOn? || step.DispatchDone? || step.DispatchLeave? {
      DispatchOnlyTask(c, s, step);
    } else {
      OtherFrame(c, s, step);
    }
  }

  lemma {:induction false} RunDeadInTurn(c: Config, steps: seq<Step>)
    requires ConfigOk(c)
    ensures DeadInTurn(c, Run(c, START, steps))
  {
    hide Next;
    if steps != [] {
      RunDeadInTurn(c, steps[..|steps| - 1]);
      NextDeadInTurn(c, Run(c, START, steps[..|steps| - 1]), steps[|steps| - 1]);
    }
  }

  /** In every interleaving a dispatch fails some partner exactly when a handler of it marked a
      failure that could not be counted: the partner whose turn it was then has a refused post and
      neither an acceptance nor a copy, and those after it have nothing.  A dispatch without such a
      mark has given each partner whose turn is over one of the two, and can go on to the next. */
  lemma DispatchDiesIff(c: Config, steps: seq<Step>, i: nat, k: nat)
    requires ConfigOk(c) && i < |Run(c, START, steps).tasks|
    ensures var s := Run(c, START, steps);
            var t, posts, copies := s.tasks[i], PostsOf(s.posts, InTask(i, k)), CopiesOf(s.copies, i, k);
            if KilledIn(c, steps, DispatchTask(i)) then
              && t.dead && |t.outcomes| < |c.partners|
              && (k == |t.outcomes| ==> posts == [Post(c.partners[k], t.message, false, InTask(i, k))] && copies == [])
              && (k > |t.outcomes| ==> posts == [] && copies == [])
            else
              && (InTurn(c, s, i) || |t.outcomes| == |c.partners|)
              && (k < |t.outcomes| ==> |copies| == if t.outcomes[k] then 0 else 1)
              && (k < |t.outcomes| && t.outcomes[k] ==> posts == [Post(c.partners[k], t.message, true, InTask(i, k))])
  {
    DiesIff(c, steps, DispatchTask(i));
    RunDeadInTurn(c, steps);
    DispatchGivesOnePerPartner(c, steps, i, k);
    hide Run, PostsOf, CopiesOf, KilledIn;
  }

  lemma NextStaysDead(c: Config, s: State, step: Step)
    requires ConfigOk(c) && s.drain.dead
    ensures Next(c, s, step).drain == s.drain
  {
    if step.DispatchOn? || step.DispatchDone? || step.DispatchLeave? {
      DispatchFrame(c, s, step);
    }
  }

  /** Once ended, the drain loop never moves again. */
  lemma {:induction false} KilledDrainStays(c: Config, steps: seq<Step>, k: nat)
    requires ConfigOk(c) && k < |steps| && KilledAt(c, steps, k, DrainLoop)
    ensures Run(c, START, steps).drain == Run(c, START, steps[..k + 1]).drain
    ensures Run(c, START, steps[..k + 1]).drain.dead
    decreases |steps|
  {
    hide Next, Kills;
    var n := |steps| - 1;
    if k == n {
      assert steps[..k + 1] == steps;
      DiesIff(c, steps, DrainLoop);
    } else {
      var front := steps[..n];
      assert front[..k] == steps[..k] && front[..k + 1] == steps[..k + 1];
      KilledDrainStays(c, front, k);
      NextStaysDead(c, Run(c, START, front), steps[n]);
    }
  }

  /** In every interleaving copies are lost exactly when a handler of the drain loop marked a failure
      that could not be counted: what the loop then held stays with it in every later step. */
  lemma CopiesLostIff(c: Config, steps: seq<Step>)
    requires ConfigOk(c)
    ensures var s := Run(c, START, steps);
            && (Sent(s.copies) == multiset(s.queue) + HeldLive(s.drain) + s.retired + s.evicted <==>
                  !KilledIn(c, steps, DrainLoop))
            && forall k | 0 <= k < |steps| && KilledAt(c, steps, k, DrainLoop) ::
                 Held(s.drain) == Held(Run(c, START, steps[..k + 1]).drain)
  {
    DiesIff(c, steps, DrainLoop);
    CopiesConserved(c, steps);
    hide Run, Kills;
    forall k | 0 <= k < |steps| && KilledAt(c, steps, k, DrainLoop)
      ensures Held(Run(c, START, steps).drain) == Held(Run(c, START, steps[..k + 1]).drain)
    {
      KilledDrainStays(c, steps, k);
    }
  }

  // ---- while every count can be stored ----

  /** No partner ever failed more often in a row than can be counted. */
  ghost predicate WithinCount(c: Config, marks: seq<Mark>) {
    forall n, url | 0 <= n <= |marks| :: FailuresInARow(marks[..n], url) <= CountLimit(c.settings)
  }

  lemma WithinPrefix(c: Config, marks: seq<Mark>, x: Mark)
    requires WithinCount(c, marks + [x])
    ensures WithinCount(c, marks)
  {
    forall n, url | 0 <= n <= |marks| ensures FailuresInARow(marks[..n], url) <= CountLimit(c.settings) {
      assert (marks + [x])[..n] == marks[..n];
    }
  }

  /** A mark that ends an actor is one failure too many. */
  lemma KillExceeds(c: Config, s: State, step: Step, a: Actor)
    requires ConfigOk(c) && Kills(c, s, step, a)
    ensures !WithinCount(c, Next(c, s, step).marks)
  {
    hide Marked, Raises, Enqueue, Evicted, FailuresInARow;
    var after, url := Next(c, s, step), HandledBy(c, s, step).url;
    assert after.marks == s.marks + [Mark(url, false, step.now)];
    MoreMarks(c, s.marks, Mark(url, false, step.now), url);
    assert after.marks[..|after.marks|] == after.marks;
  }

  lemma {:induction false} KilledExceeds(c: Config, steps: seq<Step>, k: nat, a: Actor)
    requires ConfigOk(c) && k < |steps| && KilledAt(c, steps, k, a)
    ensures !WithinCount(c, Run(c, START, steps).marks)
    decreases |steps|
  {
    hide Next, WithinCount, Kills;
    var n := |steps| - 1;
    var s, step := Run(c, START, steps[..n]), steps[n];
    if k == n {
      KillExceeds(c, s, step, a);
    } else {
      var front := steps[..n];
      assert front[..k] == steps[..k];
      KilledExceeds(c, front, k, a);
      NextMarks(c, s, step);
      if url, ok, now :| MarksOne(c, s, Next(c, s, step), url, ok, now) {
        if WithinCount(c, Next(c, s, step).marks) {
          WithinPrefix(c, s.marks, Mark(url, ok, now));
        }
      }
    }
  }

  /** In particular, in every interleaving in which each count can be stored, no error ends a task or
      the drain loop, and no copy is lost. */
  lemma NothingLostWithinCount(c: Config, steps: seq<Step>)
    requires ConfigOk(c) && WithinCount(c, Run(c, START, steps).marks)
    ensures var s := Run(c, START, steps);
            && !s.drain.dead && (forall i | 0 <= i < |s.tasks| :: !s.tasks[i].dead)
            && Sent(s.copies) == multiset(s.queue) + HeldLive(s.drain) + s.retired + s.evicted
  {
    forall a ensures !Dead(Run(c, START, steps), a) {
      DiesIff(c, steps, a);
      if k :| 0 <= k < |steps| && KilledAt(c, steps, k, a) {
        KilledExceeds(c, steps, k, a);
      }
    }
    hide Run;
    var s := Run(c, START, steps);
    CopiesConserved(c, steps);
    assert !Dead(s, DrainLoop);
    forall i | 0 <= i < |s.tasks| ensures !s.tasks[i].dead {
      assert !Dead(s, DispatchTask(i));
    }
  }

  // ---- one failure more ----

  /** A clock under which every breaker has passed. */
  function Clock(c: Config, n: nat): real {
    if n == 0 then 0.0 else Clock(c, n - 1) + 16.0 * c.settings.breakSeconds + 1.0
  }

  /** `n` dispatches, one after the other, whose first post fails. */
  function Rounds(c: Config, m: Message, n: nat): seq<Step> {
    if n == 0 then []
    else Rounds(c, m, n - 1) + [Spawn(m), DispatchOn(n - 1, Clock(c, n - 1)), DispatchDone(n - 1, Failure, Clock(c, n - 1))]
  }

  lemma ThreeMore(c: Config, s: State, steps: seq<Step>, a: Step, b: Step, d: Step)
    requires ConfigOk(c)
    ensures Run(c, s, steps + [a, b, d]) == Next(c, Next(c, Next(c, Run(c, s, steps), a), b), d)
  {
    hide Next;
    assert (steps + [a, b, d])[..|steps| + 2] == steps + [a, b];
    assert (steps + [a, b])[..|steps| + 1] == steps + [a];
    assert (steps + [a])[..|steps|] == steps;
    assert Run(c, s, steps + [a]) == Next(c, Run(c, s, steps), a);
    assert Run(c, s, steps + [a, b]) == Next(c, Run(c, s, steps + [a]), b);
  }

  /** `n` rounds have been failed by the first partner, and the clock is past its breaker. */
  ghost predicate Failed(c: Config, s: State, n: nat)
    requires |c.partners| >= 1
  {
    && |s.tasks| == n && Fails(s.failures, c.partners[0]) == n
    && Available(c.settings, s.failures, c.partners[0], Clock(c, n))
  }

  /** The task of a round waits for its post to the first partner. */
  lemma RoundPosts(c: Config, s: State, m: Message, n: nat)
    requires ConfigOk(c) && |c.partners| >= 1 && Failed(c, s, n)
    ensures Next(c, Next(c, s, Spawn(m)), DispatchOn(n, Clock(c, n))) == s.(tasks := s.tasks + [Task(m, [], Waiting, false)])
  {
    hide Marked, Enqueue, Evicted;
    assert Next(c, s, Spawn(m)).tasks[n] == Task(m, [], Ready, false);
    assert (s.tasks + [Task(m, [], Ready, false)])[n := Task(m, [], Waiting, false)] == s.tasks + [Task(m, [], Waiting, false)];
  }

  /** One more counted failure of the first partner, and when its breaker has passed. */
  lemma OneMoreFailure(c: Config, failures: Failures, n: nat)
    requires |c.partners| >= 1 && c.settings.breakSeconds >= 0.0 && Fails(failures, c.partners[0]) == n < CountLimit(c.settings)
    ensures var after := MarkFail(c.settings, failures, c.partners[0], Clock(c, n));
            Fails(after, c.partners[0]) == n + 1 && Available(c.settings, after, c.partners[0], Clock(c, n + 1))
  {
    hide Period;
    if c.settings.maxRetry <= n + 1 {
      Breakers.PeriodBounds(c.settings, n + 1 - c.settings.maxRetry);
    }
  }

  lemma RoundFails(c: Config, s: State, m: Message, n: nat)
    requires ConfigOk(c) && |c.partners| >= 1 && c.settings.breakSeconds >= 0.0
    requires Failed(c, s, n)
    ensures var now := Clock(c, n);
            var after := Next(c, Next(c, Next(c, s, Spawn(m)), DispatchOn(n, now)), DispatchDone(n, Failure, now));
            if n < CountLimit(c.settings) then Failed(c, after, n + 1)
            else |after.tasks| == n + 1 && after.tasks[n] == Task(m, [], Ready, true) && after.copies == s.copies && after.queue == s.queue
  {
    hide MarkFail, Available, Enqueue, Evicted, Clock;
    RoundPosts(c, s, m, n);
    if n < CountLimit(c.settings) {
      OneMoreFailure(c, s.failures, n);
    }
  }

  lemma {:induction false} RoundsFail(c: Config, m: Message, n: nat)
    requires ConfigOk(c) && |c.partners| >= 1 && c.settings.breakSeconds >= 0.0 && n <= CountLimit(c.settings)
    ensures Failed(c, Run(c, START, Rounds(c, m, n)), n)
  {
    hide Next;
    if n > 0 {
      var before := Run(c, START, Rounds(c, m, n - 1));
      RoundsFail(c, m, n - 1);
      ThreeMore(c, START, Rounds(c, m, n - 1), Spawn(m), DispatchOn(n - 1, Clock(c, n - 1)), DispatchDone(n - 1, Failure, Clock(c, n - 1)));
      RoundFails(c, before, m, n - 1);
    }
  }

  /** When one partner has failed as often in a row as can be counted, the next dispatch whose post
      to it fails ends in an error: no acceptance, and no copy queued. */
  lemma DispatchDies(c: Config, m: Message)
    requires ConfigOk(c) && |c.partners| >= 1 && c.settings.breakSeconds >= 0.0
    ensures var n := CountLimit(c.settings);
            var before, after := Run(c, START, Rounds(c, m, n)), Run(c, START, Rounds(c, m, n + 1));
            && |after.tasks| == n + 1 && after.tasks[n] == Task(m, [], Ready, true)
            && after.copies == before.copies && after.queue == before.queue
  {
    hide Next;
    var n := CountLimit(c.settings);
    RoundsFail(c, m, n);
    ThreeMore(c, START, Rounds(c, m, n), Spawn(m), DispatchOn(n, Clock(c, n)), DispatchDone(n, Failure, Clock(c, n)));
    RoundFails(c, Run(c, START, Rounds(c, m, n)), m, n);
  }
}
