/** What the breaker decides in every interleaving: no post is started to a partner that is skipped, and no
    partner is passed over otherwise. */
module RelayChecks {
  import opened Relay
  import opened RelayRuns
  import opened RelayFailures

  /** By the marks so far the partner has failed `maxRetry` times or more in a row, and the period that the last
      counted failure opened has not passed. */
  predicate Skipped(c: Config, marks: seq<Mark>, url: string, now: real) {
    var n := StoredCount(c, marks, url);
    n > 0 && n >= c.settings.maxRetry && now <= LastCounted(c, marks, url) + OpenPeriod(c.settings, n)
  }

  lemma SkippedUnlessAvailable(c: Config, steps: seq<Step>, url: string, now: real)
    requires ConfigOk(c)
    ensures Available(c.settings, Run(c, START, steps).failures, url, now) <==> !Skipped(c, Run(c, START, steps).marks, url, now)
  {
    hide Run, Available, OpenPeriod, LastCounted, StoredCount;
    SkippedIff(c, steps, url, now);
  }

  // ---- the turns ----

  /** A dispatch passes over exactly the partners that are skipped, with a copy for each, and posts to all
      others. */
  lemma DispatchDecides(c: Config, steps: seq<Step>, i: nat, now: real)
    requires ConfigOk(c)
    requires var s := Run(c, START, steps); InTurn(c, s, i) && s.tasks[i].phase.Ready?
    ensures var s := Run(c, START, steps);
            var after, t, k := Next(c, s, DispatchOn(i, now)), s.tasks[i], |s.tasks[i].outcomes|;
            if Skipped(c, s.marks, c.partners[k], now) then
              && after.tasks == s.tasks[i := Task(t.message, t.outcomes + [false], Ready, false)]
              && after.copies == s.copies + [Copy(t.message, i, k)] && after.queue == Enqueue(s.queue, c.settings.cap, t.message)
              && after.posts == s.posts && after.marks == s.marks
            else after == s.(tasks := s.tasks[i := t.(phase := Waiting)])
  {
    hide Run, Available, Skipped;
    var s := Run(c, START, steps);
    SkippedUnlessAvailable(c, steps, c.partners[|s.tasks[i].outcomes|], now);
  }

  /** The drain passes over exactly the partners that are skipped, posts to all others, and queues its message
      again once it has been at every partner. */
  lemma DrainDecides(c: Config, steps: seq<Step>, now: real)
    requires ConfigOk(c)
    requires var s := Run(c, START, steps); InHand(s) && s.drain.phase.Ready?
    ensures var s := Run(c, START, steps);
            var after, d := Next(c, s, DrainOn(now)), s.drain;
            if d.partner >= |c.partners| then
              && after.drain == Drain(d.taken, d.flags + [false], 0, Ready, false)
              && after.queue == Enqueue(s.queue, c.settings.cap, d.taken[|d.flags|])
              && after.posts == s.posts && after.marks == s.marks && after.retired == s.retired
            else if Skipped(c, s.marks, c.partners[d.partner], now) then after == s.(drain := d.(partner := d.partner + 1))
            else after == s.(drain := d.(phase := Waiting))
  {
    hide Run, Available, Skipped;
    var s := Run(c, START, steps);
    if s.drain.partner < |c.partners| {
      SkippedUnlessAvailable(c, steps, c.partners[s.drain.partner], now);
    }
  }

  /** Only so is a message queued again: any other step that is done with one has delivered it. */
  lemma QueuedAgainAfterAll(c: Config, s: State, step: Step)
    requires ConfigOk(c) && InHand(s) && Next(c, s, step).drain.flags == s.drain.flags + [false]
    ensures step.DrainOn? && s.drain.phase.Ready? && s.drain.partner >= |c.partners|
  {
    var after := Next(c, s, step);
    assert |after.drain.flags| == |s.drain.flags| + 1 && !after.drain.flags[|s.drain.flags|];
    hide Available, Raises, Marked, Enqueue;
  }

  // ---- every post was checked ----

  /** Step j checked the breaker for turn k of task i, and it was not open. */
  ghost predicate TaskChecked(c: Config, steps: seq<Step>, j: nat, i: nat, k: nat)
    requires ConfigOk(c)
  {
    && j < |steps| && steps[j].DispatchOn? && steps[j].i == i
    && var s := Run(c, START, steps[..j]);
       && InTurn(c, s, i) && |s.tasks[i].outcomes| == k
       && !Skipped(c, s.marks, c.partners[k], steps[j].now)
  }

  /** Step j checked it for the message and the partner that the drain is at. */
  ghost predicate DrainChecked(c: Config, steps: seq<Step>, j: nat, d: Drain)
    requires ConfigOk(c)
  {
    && j < |steps| && steps[j].DrainOn? && d.partner < |c.partners|
    && var s := Run(c, START, steps[..j]);
       && s.drain == d.(phase := Ready)
       && !Skipped(c, s.marks, c.partners[d.partner], steps[j].now)
  }

  ghost predicate WaitingChecked(c: Config, steps: seq<Step>)
    requires ConfigOk(c)
  {
    var s := Run(c, START, steps);
    && (forall i: nat | InTurn(c, s, i) && s.tasks[i].phase.Waiting? :: exists j :: TaskChecked(c, steps, j, i, |s.tasks[i].outcomes|))
    && (InHand(s) && s.drain.phase.Waiting? && s.drain.partner < |c.partners| ==> exists j :: DrainChecked(c, steps, j, s.drain))
  }

  /** A task that waits was waiting before, or has just passed the breaker. */
  lemma TaskWaits(c: Config, s: State, step: Step, i: nat)
    requires ConfigOk(c) && InTurn(c, Next(c, s, step), i) && Next(c, s, step).tasks[i].phase.Waiting?
    ensures InTurn(c, s, i) && s.tasks[i].outcomes == Next(c, s, step).tasks[i].outcomes
    ensures s.tasks[i].phase.Waiting?
            || (step.DispatchOn? && step.i == i && Available(c.settings, s.failures, c.partners[|s.tasks[i].outcomes|], step.now))
  {
    hide Available, Raises, Marked, Enqueue;
    if !(step.DispatchOn? || step.DispatchDone? || step.DispatchLeave?) {
      hide TurnOver, TaskDone, TaskLeft;
      OtherTasks(c, s, step, i);
    } else if step.i != i {
      TaskElsewhere(c, s, step, i);
    } else {
      hide MessageOver, DrainAnswered, DrainLeft;
    }
  }

  /** Steps of the drain leave the tasks, and a new task does not wait. */
  lemma OtherTasks(c: Config, s: State, step: Step, i: nat)
    requires ConfigOk(c) && !(step.DispatchOn? || step.DispatchDone? || step.DispatchLeave?)
    ensures i < |s.tasks| ==> i < |Next(c, s, step).tasks| && Next(c, s, step).tasks[i] == s.tasks[i]
    ensures |s.tasks| <= i < |Next(c, s, step).tasks| ==> Next(c, s, step).tasks[i].phase.Ready?
  {
    hide Available, Raises, Marked, Enqueue;
  }

  lemma TaskElsewhere(c: Config, s: State, step: Step, i: nat)
    requires ConfigOk(c) && (step.DispatchOn? || step.DispatchDone? || step.DispatchLeave?) && step.i != i
    ensures |Next(c, s, step).tasks| == |s.tasks|
    ensures i < |s.tasks| ==> Next(c, s, step).tasks[i] == s.tasks[i]
  {
    hide Available, Raises, Marked, Enqueue;
  }

  lemma DrainWaits(c: Config, s: State, step: Step)
    requires ConfigOk(c) && InHand(Next(c, s, step)) && Next(c, s, step).drain.phase.Waiting?
    requires Next(c, s, step).drain.partner < |c.partners|
    ensures s.drain == Next(c, s, step).drain
            || (step.DrainOn? && s.drain == Next(c, s, step).drain.(phase := Ready)
                && Available(c.settings, s.failures, c.partners[s.drain.partner], step.now))
  {
    hide Available, Raises, Marked, Enqueue;
  }

  lemma CheckedLonger(c: Config, steps: seq<Step>, j: nat)
    requires ConfigOk(c) && steps != [] && j < |steps| - 1
    ensures forall i, k :: TaskChecked(c, steps[..|steps| - 1], j, i, k) ==> TaskChecked(c, steps, j, i, k)
    ensures forall d :: DrainChecked(c, steps[..|steps| - 1], j, d) ==> DrainChecked(c, steps, j, d)
  {
    hide Run, Skipped;
    assert steps[..|steps| - 1][..j] == steps[..j];
  }

  lemma {:induction false} RunChecked(c: Config, steps: seq<Step>)
    requires ConfigOk(c)
    ensures WaitingChecked(c, steps)
  {
    hide TaskChecked, DrainChecked, Next;
    if steps != [] {
      var front, step := steps[..|steps| - 1], steps[|steps| - 1];
      var s, after := Run(c, START, front), Run(c, START, steps);
      RunChecked(c, front);
      forall i: nat | InTurn(c, after, i) && after.tasks[i].phase.Waiting?
        ensures exists j :: TaskChecked(c, steps, j, i, |after.tasks[i].outcomes|)
      {
        LastTaskChecked(c, steps, i);
      }
      if InHand(after) && after.drain.phase.Waiting? && after.drain.partner < |c.partners| {
        LastDrainChecked(c, steps);
      }
    }
  }

  lemma LastTaskChecked(c: Config, steps: seq<Step>, i: nat)
    requires ConfigOk(c) && steps != [] && WaitingChecked(c, steps[..|steps| - 1])
    requires InTurn(c, Run(c, START, steps), i) && Run(c, START, steps).tasks[i].phase.Waiting?
    ensures exists j :: TaskChecked(c, steps, j, i, |Run(c, START, steps).tasks[i].outcomes|)
  {
    hide Next, Skipped, Available;
    var front, step := steps[..|steps| - 1], steps[|steps| - 1];
    var s := Run(c, START, front);
    TaskWaits(c, s, step, i);
    var k := |s.tasks[i].outcomes|;
    if s.tasks[i].phase.Waiting? {
      var j :| TaskChecked(c, front, j, i, k);
      CheckedLonger(c, steps, j);
      assert TaskChecked(c, steps, j, i, k);
    } else {
      SkippedUnlessAvailable(c, front, c.partners[k], step.now);
      assert TaskChecked(c, steps, |front|, i, k);
    }
  }

  lemma LastDrainChecked(c: Config, steps: seq<Step>)
    requires ConfigOk(c) && steps != [] && WaitingChecked(c, steps[..|steps| - 1])
    requires var s := Run(c, START, steps); InHand(s) && s.drain.phase.Waiting? && s.drain.partner < |c.partners|
    ensures exists j :: DrainChecked(c, steps, j, Run(c, START, steps).drain)
  {
    hide Next, Skipped, Available;
    var front, step := steps[..|steps| - 1], steps[|steps| - 1];
    var s, d := Run(c, START, front), Run(c, START, steps).drain;
    DrainWaits(c, s, step);
    if s.drain == d {
      var j :| DrainChecked(c, front, j, d);
      CheckedLonger(c, steps, j);
      assert DrainChecked(c, steps, j, d);
    } else {
      SkippedUnlessAvailable(c, front, c.partners[d.partner], step.now);
      assert DrainChecked(c, steps, |front|, d);
    }
  }

  lemma PostComesFrom(c: Config, s: State, step: Step)
    requires ConfigOk(c) && Next(c, s, step).posts != s.posts
    ensures |Next(c, s, step).posts| == |s.posts| + 1
    ensures var p := Next(c, s, step).posts[|s.posts|];
            match p.origin
            case InTask(i, k) => InTurn(c, s, i) && s.tasks[i].phase.Waiting? && k == |s.tasks[i].outcomes| && p.url == c.partners[k]
            case FromDrain => InHand(s) && s.drain.phase.Waiting? && s.drain.partner < |c.partners| && p.url == c.partners[s.drain.partner]
  {
    hide Available, Raises, Marked, Enqueue;
  }

  /** In every interleaving each post was started by a check of its own turn, earlier in the run, at which its
      partner was not skipped. */
  lemma PostsPassBreaker(c: Config, steps: seq<Step>, step: Step)
    requires ConfigOk(c) && Run(c, START, steps + [step]).posts != Run(c, START, steps).posts
    ensures |Run(c, START, steps + [step]).posts| == |Run(c, START, steps).posts| + 1
    ensures var s := Run(c, START, steps);
            var p := Run(c, START, steps + [step]).posts[|s.posts|];
            match p.origin
            case InTask(i, k) => k < |c.partners| && p.url == c.partners[k] && exists j :: TaskChecked(c, steps, j, i, k)
            case FromDrain =>
              s.drain.partner < |c.partners| && p.url == c.partners[s.drain.partner] && exists j :: DrainChecked(c, steps, j, s.drain)
  {
    hide Next, TaskChecked, DrainChecked;
    assert (steps + [step])[..|steps|] == steps;
    RunChecked(c, steps);
    PostComesFrom(c, Run(c, START, steps), step);
  }
}
