/** What every post and every queued copy of a run belongs to. */
module RelayTurns {
  import opened Json
  import opened Relay
  import opened RelayRuns

  /** The posts made by `o`, in order. */
  function PostsOf(posts: seq<Post>, o: Origin): seq<Post> {
    if posts == [] then []
    else
      var last := posts[|posts| - 1];
      PostsOf(posts[..|posts| - 1], o) + if last.origin == o then [last] else []
  }

  /** The copies queued in the turn of partner `k` in task `i`. */
  function CopiesOf(copies: seq<Copy>, i: nat, k: nat): seq<Copy> {
    if copies == [] then []
    else
      var last := copies[|copies| - 1];
      CopiesOf(copies[..|copies| - 1], i, k) + if last.task == i && last.partner == k then [last] else []
  }

  lemma PostsOfAppend(posts: seq<Post>, p: Post, o: Origin)
    ensures PostsOf(posts + [p], o) == PostsOf(posts, o) + if p.origin == o then [p] else []
  {
    assert (posts + [p])[..|posts|] == posts;
  }

  lemma CopiesOfAppend(copies: seq<Copy>, x: Copy, i: nat, k: nat)
    ensures CopiesOf(copies + [x], i, k) == CopiesOf(copies, i, k) + if x.task == i && x.partner == k then [x] else []
  {
    assert (copies + [x])[..|copies|] == copies;
  }

  /** What task `t` did in the turn of partner `k`, at `url`.  A turn that is over made one accepted
      post and queued nothing, or queued one copy after at most one post, which was not accepted.
      The turn at hand has made at most the post it is leaving, or the one that ended the task; a
      later turn has made nothing. */
  predicate TurnFits(t: Task, i: nat, k: nat, url: string, posts: seq<Post>, copies: seq<Copy>) {
    var accepted, refused := Post(url, t.message, true, InTask(i, k)), Post(url, t.message, false, InTask(i, k));
    if k < |t.outcomes| then
      if t.outcomes[k] then posts == [accepted] && copies == []
      else (posts == [] || posts == [refused]) && copies == [Copy(t.message, i, k)]
    else
      && copies == []
      && (if k > |t.outcomes| then posts == []
          else if t.dead then posts == [refused]
          else if t.phase.Leaving? then posts == [if t.phase.ok then accepted else refused]
          else posts == [])
  }

  ghost predicate TurnOk(c: Config, s: State, i: nat, k: nat) {
    var posts, copies := PostsOf(s.posts, InTask(i, k)), CopiesOf(s.copies, i, k);
    if i < |s.tasks| && k < |c.partners| then TurnFits(s.tasks[i], i, k, c.partners[k], posts, copies)
    else posts == [] && copies == []
  }

  ghost predicate TasksOk(c: Config, s: State) {
    forall i | 0 <= i < |s.tasks| :: |s.tasks[i].outcomes| <= |c.partners| && (s.tasks[i].phase.Leaving? && s.tasks[i].phase.ok ==> !s.tasks[i].phase.raised)
  }

  ghost predicate TurnsOk(c: Config, s: State) {
    TasksOk(c, s) && forall i: nat, k: nat :: TurnOk(c, s, i, k)
  }

  lemma DrainPostElsewhere(before: seq<Post>, after: seq<Post>, i: nat, k: nat)
    requires OneMorePost(before, after) && (|after| > |before| ==> after[|before|].origin.FromDrain?)
    ensures PostsOf(after, InTask(i, k)) == PostsOf(before, InTask(i, k))
  {
    if |after| > |before| {
      assert after == before + [after[|before|]];
      PostsOfAppend(before, after[|before|], InTask(i, k));
    } else {
      assert after == before;
    }
  }

  lemma NewTaskKeepsTurn(c: Config, s: State, after: State, m: Message, i: nat, k: nat)
    requires TasksOk(c, s) && TurnOk(c, s, i, k)
    requires after.tasks == s.tasks || after.tasks == s.tasks + [Task(m, [], Ready, false)]
    requires after.copies == s.copies && PostsOf(after.posts, InTask(i, k)) == PostsOf(s.posts, InTask(i, k))
    ensures TurnOk(c, after, i, k) && TasksOk(c, after)
  {
    hide PostsOf, CopiesOf;
  }

  /** A step of the drain or a new task. */
  lemma OtherStepKeepsTurn(c: Config, s: State, step: Step, i: nat, k: nat)
    requires ConfigOk(c) && TurnsOk(c, s) && (step.Spawn? || step.DrainWake? || DrainStep(step))
    ensures TurnOk(c, Next(c, s, step), i, k) && TasksOk(c, Next(c, s, step))
  {
    OtherFrame(c, s, step);
    hide Next, PostsOf, CopiesOf, TurnOk;
    var after := Next(c, s, step);
    assert TurnOk(c, s, i, k);
    DrainPostElsewhere(s.posts, after.posts, i, k);
    NewTaskKeepsTurn(c, s, after, if step.Spawn? then step.message else Null, i, k);
  }

  /** The turn at hand of task `j` ends without another post. */
  lemma TurnOverKeepsTurn(c: Config, s: State, j: nat, ok: bool, i: nat, k: nat)
    requires ConfigOk(c) && TasksOk(c, s) && TurnOk(c, s, i, k) && InTurn(c, s, j)
    requires ok ==> s.tasks[j].phase.Leaving? && s.tasks[j].phase.ok
    requires !ok && s.tasks[j].phase.Leaving? ==> !s.tasks[j].phase.ok
    ensures TurnOk(c, TurnOver(c, s, j, ok), i, k) && TasksOk(c, TurnOver(c, s, j, ok))
  {
    hide Enqueue, Evicted, PostsOf, CopiesOf;
    CopiesOfAppend(s.copies, Copy(s.tasks[j].message, j, |s.tasks[j].outcomes|), i, k);
  }

  /** Task `j` dies after a post that was not accepted. */
  lemma DyingKeepsTurn(c: Config, s: State, j: nat, i: nat, k: nat)
    requires TasksOk(c, s) && TurnOk(c, s, i, k) && InTurn(c, s, j)
    requires s.tasks[j].phase.Leaving? && !s.tasks[j].phase.ok
    ensures TurnOk(c, TaskDies(s, j), i, k) && TasksOk(c, TaskDies(s, j))
  {
    hide PostsOf, CopiesOf;
  }

  /** A post of task `j` that ended, its outcome still to be dealt with. */
  function PostEnded(c: Config, s: State, j: nat, ok: bool): State
    requires InTurn(c, s, j)
  {
    WithTask(TaskPosted(c, s, j, ok), j, s.tasks[j].(phase := Leaving(ok, false)))
  }

  lemma PostKeepsTurn(c: Config, s: State, j: nat, ok: bool, i: nat, k: nat)
    requires TasksOk(c, s) && TurnOk(c, s, i, k) && InTurn(c, s, j) && s.tasks[j].phase.Waiting?
    ensures TurnOk(c, PostEnded(c, s, j, ok), i, k) && TasksOk(c, PostEnded(c, s, j, ok))
  {
    hide PostsOf, CopiesOf;
    PostsOfAppend(s.posts, Post(TurnUrl(c, s, j), s.tasks[j].message, ok, InTask(j, |s.tasks[j].outcomes|)), InTask(i, k));
  }

  /** Turns look only at the posts, the copies and the tasks. */
  lemma SameTurn(c: Config, s: State, after: State, i: nat, k: nat)
    requires TurnOk(c, s, i, k) && TasksOk(c, s)
    requires after.posts == s.posts && after.copies == s.copies && after.tasks == s.tasks
    ensures TurnOk(c, after, i, k) && TasksOk(c, after)
  {
  }

  /** The handler of a failed post. */
  lemma FailedKeepsTurn(c: Config, s: State, j: nat, now: real, i: nat, k: nat)
    requires ConfigOk(c) && TasksOk(c, s) && TurnOk(c, s, i, k) && InTurn(c, s, j)
    requires s.tasks[j].phase.Leaving? && !s.tasks[j].phase.ok
    ensures TurnOk(c, TaskFailed(c, s, j, now), i, k) && TasksOk(c, TaskFailed(c, s, j, now))
  {
    hide TurnOk, TurnOver, TasksOk, Marked, Raises;
    var marked := Marking(c, s, TurnUrl(c, s, j), false, now);
    SameTurn(c, s, marked, i, k);
    TurnOverKeepsTurn(c, marked, j, false, i, k);
    DyingKeepsTurn(c, marked, j, i, k);
  }

  lemma DoneKeepsTurn(c: Config, s: State, j: nat, answer: Answer, now: real, i: nat, k: nat)
    requires ConfigOk(c) && TasksOk(c, s) && TurnOk(c, s, i, k) && InTurn(c, s, j) && s.tasks[j].phase.Waiting?
    ensures TurnOk(c, TaskDone(c, s, j, answer, now), i, k) && TasksOk(c, TaskDone(c, s, j, answer, now))
  {
    hide PostsOf, CopiesOf, Marked, Enqueue, Evicted;
    var ended := PostEnded(c, s, j, answer.Success?);
    PostKeepsTurn(c, s, j, answer.Success?, i, k);
    if answer.Failure? {
      FailedKeepsTurn(c, ended, j, now, i, k);
      assert TaskFailed(c, TaskPosted(c, s, j, false), j, now) == TaskFailed(c, ended, j, now);
    }
  }

  lemma DispatchKeepsTurn(c: Config, s: State, step: Step, i: nat, k: nat)
    requires ConfigOk(c) && TurnsOk(c, s) && (step.DispatchOn? || step.DispatchDone? || step.DispatchLeave?)
    ensures TurnOk(c, Next(c, s, step), i, k) && TasksOk(c, Next(c, s, step))
  {
    hide PostsOf, CopiesOf, Available, TurnOver, TaskFailed, TaskDone, Marked;
    assert TurnOk(c, s, i, k);
    var j := step.i;
    if InTurn(c, s, j) {
      match step {
        case DispatchOn(_, now) =>
          if s.tasks[j].phase.Ready? {
            TurnOverKeepsTurn(c, s, j, false, i, k);
          }
        case DispatchDone(_, answer, now) =>
          if s.tasks[j].phase.Waiting? {
            DoneKeepsTurn(c, s, j, answer, now, i, k);
          }
        case DispatchLeave(_, now) =>
          if s.tasks[j].phase.Leaving? {
            if s.tasks[j].phase.ok {
              var marked := Marking(c, s, TurnUrl(c, s, j), true, now);
              SameTurn(c, s, marked, i, k);
              TurnOverKeepsTurn(c, marked, j, true, i, k);
            } else {
              FailedKeepsTurn(c, s, j, now, i, k);
              TurnOverKeepsTurn(c, s, j, false, i, k);
            }
          }
      }
    }
  }

  lemma {:induction false} RunTurnsOk(c: Config, steps: seq<Step>)
    requires ConfigOk(c)
    ensures TurnsOk(c, Run(c, START, steps))
  {
    hide Next, TurnOk;
    if steps == [] {
      StartTurnsOk(c);
    } else {
      var s, step := Run(c, START, steps[..|steps| - 1]), steps[|steps| - 1];
      RunTurnsOk(c, steps[..|steps| - 1]);
      forall i: nat, k: nat ensures TurnOk(c, Next(c, s, step), i, k) && TasksOk(c, Next(c, s, step)) {
        if step.DispatchOn? || step.DispatchDone? || step.DispatchLeave? {
          DispatchKeepsTurn(c, s, step, i, k);
        } else {
          OtherStepKeepsTurn(c, s, step, i, k);
        }
      }
      assert TurnOk(c, Next(c, s, step), 0, 0);
    }
  }

  lemma StartTurnsOk(c: Config)
    ensures TurnsOk(c, START)
  {
  }

  /** In every interleaving, each task gave each partner whose turn is over exactly one accepted
      post to that partner or exactly one queued copy, as its outcome says; a task that is neither
      over nor ended by an error can still go on; and no post and no copy belongs to anything else. */
  lemma DispatchGivesOnePerPartner(c: Config, steps: seq<Step>, i: nat, k: nat)
    requires ConfigOk(c)
    ensures var s := Run(c, START, steps);
            && (i < |s.tasks| ==> |s.tasks[i].outcomes| <= |c.partners|)
            && if i < |s.tasks| && k < |c.partners| then
                 TurnFits(s.tasks[i], i, k, c.partners[k], PostsOf(s.posts, InTask(i, k)), CopiesOf(s.copies, i, k))
               else PostsOf(s.posts, InTask(i, k)) == [] && CopiesOf(s.copies, i, k) == []
  {
    RunTurnsOk(c, steps);
    assert TurnOk(c, Run(c, START, steps), i, k);
  }

  // ---- what the drain delivered ----

  /** The messages of the accepted posts of the drain. */
  function DrainAccepted(posts: seq<Post>): multiset<Message> {
    if posts == [] then multiset{}
    else
      var last := posts[|posts| - 1];
      DrainAccepted(posts[..|posts| - 1]) + if last.ok && last.origin.FromDrain? then multiset{last.message} else multiset{}
  }

  /** The message whose accepted post the drain is leaving. */
  function InDelivery(d: Drain): multiset<Message> {
    if |d.flags| < |d.taken| && d.phase.Leaving? && d.phase.ok then multiset{d.taken[|d.flags|]} else multiset{}
  }

  ghost predicate Delivering(c: Config, s: State) {
    && DrainAccepted(s.posts) == s.retired + InDelivery(s.drain)
    && (s.drain.phase.Leaving? ==> InHand(s) && s.drain.partner < |c.partners| && !(s.drain.phase.ok && s.drain.phase.raised))
  }

  lemma DrainAcceptedAppend(posts: seq<Post>, p: Post)
    ensures DrainAccepted(posts + [p]) == DrainAccepted(posts) + if p.ok && p.origin.FromDrain? then multiset{p.message} else multiset{}
  {
    assert (posts + [p])[..|posts|] == posts;
  }

  /** A dispatch step touches neither the drain nor what it delivered. */
  lemma DispatchDelivers(c: Config, s: State, step: Step)
    requires ConfigOk(c) && Delivering(c, s) && (step.DispatchOn? || step.DispatchDone? || step.DispatchLeave?)
    ensures Delivering(c, Next(c, s, step))
  {
    DispatchFrame(c, s, step);
    hide Next, DrainAccepted;
    var after := Next(c, s, step);
    if after.posts != s.posts {
      assert after.posts == s.posts + [after.posts[|s.posts|]];
      DrainAcceptedAppend(s.posts, after.posts[|s.posts|]);
    }
  }

  lemma MessageOverDelivers(c: Config, s: State, ok: bool)
    requires ConfigOk(c) && InHand(s) && DrainAccepted(s.posts) == s.retired + InDelivery(s.drain)
    requires ok <==> s.drain.phase.Leaving? && s.drain.phase.ok
    ensures Delivering(c, MessageOver(c, s, ok))
  {
    hide Enqueue, Evicted, DrainAccepted;
  }

  lemma AnswerDelivers(c: Config, s: State, answer: Answer, now: real)
    requires Delivering(c, s) && InHand(s) && s.drain.phase.Waiting? && s.drain.partner < |c.partners|
    ensures Delivering(c, DrainAnswered(c, s, answer, now))
  {
    hide Marked, DrainAccepted;
    DrainAcceptedAppend(s.posts, Post(c.partners[s.drain.partner], s.drain.taken[|s.drain.flags|], answer.Success?, FromDrain));
  }

  lemma DrainDelivers(c: Config, s: State, step: Step)
    requires ConfigOk(c) && Delivering(c, s) && DrainStep(step)
    ensures Delivering(c, Next(c, s, step))
  {
    hide Marked, Available, Raises, MessageOver, DrainAnswered, DrainAccepted;
    if InHand(s) {
      match step {
        case DrainOn(now) =>
          if s.drain.phase.Ready? {
            MessageOverDelivers(c, s, false);
          }
        case DrainDone(answer, now) =>
          if s.drain.phase.Waiting? && s.drain.partner < |c.partners| {
            AnswerDelivers(c, s, answer, now);
          }
        case DrainLeave(now) =>
          if s.drain.phase.Leaving? && s.drain.phase.ok {
            MessageOverDelivers(c, s, true);
          }
      }
    }
  }

  lemma NextDelivers(c: Config, s: State, step: Step)
    requires ConfigOk(c) && Delivering(c, s)
    ensures Delivering(c, Next(c, s, step))
  {
    if DrainStep(step) {
      DrainDelivers(c, s, step);
    } else if !step.Spawn? && !step.DrainWake? {
      DispatchDelivers(c, s, step);
    }
  }

  /** In every interleaving a copy is retired exactly by an accepted post of the drain. */
  lemma {:induction false} RetiredArePosts(c: Config, steps: seq<Step>)
    requires ConfigOk(c)
    ensures var s := Run(c, START, steps);
            && DrainAccepted(s.posts) == s.retired + InDelivery(s.drain)
            && Delivering(c, s)
  {
    if steps != [] {
      RetiredArePosts(c, steps[..|steps| - 1]);
      NextDelivers(c, Run(c, START, steps[..|steps| - 1]), steps[|steps| - 1]);
    }
  }

  // ---- the drain without dispatches ----

  /** Between a wake-up and now only the drain ran: what it is done with is retired or queued again,
      in order, and nothing is evicted. */
  ghost predicate DrainedInOrder(before: State, s: State) {
    && s.drain.taken == before.queue && |s.drain.flags| <= |s.drain.taken|
    && (s.drain.dead ==> |s.drain.flags| < |s.drain.taken|)
    && s.queue == Undelivered(s.drain.taken[..|s.drain.flags|], s.drain.flags)
    && s.retired == before.retired + multiset(Delivered(s.drain.taken[..|s.drain.flags|], s.drain.flags))
    && s.evicted == before.evicted && s.tasks == before.tasks
  }

  lemma MessageOverInOrder(c: Config, before: State, s: State, ok: bool)
    requires ConfigOk(c) && |before.queue| <= c.settings.cap
    requires DrainedInOrder(before, s) && InHand(s)
    ensures DrainedInOrder(before, MessageOver(c, s, ok))
  {
    var n := |s.drain.flags|;
    var done, m := s.drain.taken[..n], s.drain.taken[n];
    assert s.drain.taken[..n + 1] == done + [m];
    UndeliveredAppend(done, s.drain.flags, m, ok);
    UndeliveredLength(done, s.drain.flags);
  }

  lemma DrainStepInOrder(c: Config, before: State, s: State, step: Step)
    requires ConfigOk(c) && |before.queue| <= c.settings.cap && DrainStep(step)
    requires DrainedInOrder(before, s)
    ensures DrainedInOrder(before, Next(c, s, step))
  {
    hide Marked, Available, Raises, MessageOver, Undelivered, Delivered;
    if InHand(s) {
      MessageOverInOrder(c, before, s, step.DrainLeave?);
    }
  }

  lemma {:induction false} DrainRunInOrder(c: Config, before: State, steps: seq<Step>)
    requires ConfigOk(c) && before.drain.Idle() && !before.drain.dead && before.queue != [] && |before.queue| <= c.settings.cap
    requires forall step | step in steps :: DrainStep(step)
    ensures DrainedInOrder(before, Run(c, Next(c, before, DrainWake), steps))
  {
    var woken := Next(c, before, DrainWake);
    if steps == [] {
      assert woken.drain.taken[..0] == [];
    } else {
      var front, step := steps[..|steps| - 1], steps[|steps| - 1];
      assert step in steps;
      DrainRunInOrder(c, before, front);
      DrainStepInOrder(c, before, Run(c, woken, front), step);
    }
  }

  /** When a drain with no dispatch beside it is idle again, the queue holds exactly the undelivered
      messages, in order; when an error ends it, the message at hand and those after it are in
      neither, and the queue holds the undelivered ones before it. */
  lemma DrainLeavesUndelivered(c: Config, before: State, steps: seq<Step>)
    requires ConfigOk(c) && before.drain.Idle() && !before.drain.dead && before.queue != [] && |before.queue| <= c.settings.cap
    requires forall step | step in steps :: DrainStep(step)
    ensures var after := Run(c, Next(c, before, DrainWake), steps);
            var flags := after.drain.flags;
            && |flags| <= |before.queue| && (after.drain.dead ==> |flags| < |before.queue|)
            && (after.drain.Idle() ==> |flags| == |before.queue| && before.queue[..|flags|] == before.queue)
            && after.queue == Undelivered(before.queue[..|flags|], flags)
            && after.retired == before.retired + multiset(Delivered(before.queue[..|flags|], flags))
            && after.evicted == before.evicted
  {
    DrainRunInOrder(c, before, steps);
    assert before.queue[..|before.queue|] == before.queue;
  }
}
