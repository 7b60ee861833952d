/** Every interleaving of dispatch tasks and the drain loop at their awaits. */
module RelayRuns {
  import opened Relay

  /** Between two awaits: not posting, waiting for a post, or leaving the session of a post that was
      answered, after its outcome was marked or the mark raised. */
  datatype Phase = Ready | Waiting | Leaving(ok: bool, raised: bool)

  /** A dispatch task: what became of each partner so far (accepted or a copy queued), and whether
      an uncaught error ended it. */
  datatype Task = Task(message: Message, outcomes: seq<bool>, phase: Phase, dead: bool)

  /** The drain loop: the messages it took, which of the first ones were delivered, the partner it
      is at for the next one, and whether an uncaught error ended it. */
  datatype Drain = Drain(taken: seq<Message>, flags: seq<bool>, partner: nat, phase: Phase, dead: bool) {
    predicate Idle() {
      |flags| == |taken|
    }
  }

  /** How a post ends: answered with success, answered with another status, or failed. */
  datatype Answer = Success | OtherStatus | Failure

  datatype Origin = InTask(task: nat, partner: nat) | FromDrain

  /** A post that ended. */
  datatype Post = Post(url: string, message: Message, ok: bool, origin: Origin)

  /** A copy that a dispatch task queued for a partner. */
  datatype Copy = Copy(message: Message, task: nat, partner: nat)

  /** A call of `_mark_ok` or `_mark_fail`. */
  datatype Mark = Mark(url: string, ok: bool, at: real)

  datatype State = State(queue: seq<Message>, failures: Failures, tasks: seq<Task>, drain: Drain,
                         retired: multiset<Message>, evicted: multiset<Message>,
                         posts: seq<Post>, copies: seq<Copy>, marks: seq<Mark>)

  const START := State([], map[], [], Drain([], [], 0, Ready, false), multiset{}, multiset{}, [], [], [])

  datatype Step =
    | Spawn(message: Message)
    | DispatchOn(i: nat, now: real)
    | DispatchDone(i: nat, answer: Answer, now: real)
    | DispatchLeave(i: nat, now: real)
    | DrainWake
    | DrainOn(now: real)
    | DrainDone(answer: Answer, now: real)
    | DrainLeave(now: real)

  datatype Config = Config(settings: Settings, partners: seq<string>)

  ghost predicate ConfigOk(c: Config) {
    c.settings.cap >= 1
  }

  /** `_queue_safe`, keeping count of what the cap pushes out. */
  function Queued(c: Config, s: State, m: Message): State
    requires ConfigOk(c)
  {
    s.(queue := Enqueue(s.queue, c.settings.cap, m), evicted := s.evicted + multiset(Evicted(s.queue, c.settings.cap)))
  }

  function Marking(c: Config, s: State, url: string, ok: bool, now: real): State {
    s.(failures := Marked(c.settings, s.failures, url, ok, now), marks := s.marks + [Mark(url, ok, now)])
  }

  // ---- dispatch tasks ----

  /** Task `i` has a partner whose turn it is. */
  predicate InTurn(c: Config, s: State, i: nat) {
    i < |s.tasks| && !s.tasks[i].dead && |s.tasks[i].outcomes| < |c.partners|
  }

  function WithTask(s: State, i: nat, t: Task): State
    requires i < |s.tasks|
  {
    s.(tasks := s.tasks[i := t])
  }

  /** The partner whose turn it is. */
  function TurnUrl(c: Config, s: State, i: nat): string
    requires InTurn(c, s, i)
  {
    c.partners[|s.tasks[i].outcomes|]
  }

  /** A partner's turn ends: accepted, or a copy queued. */
  function TurnOver(c: Config, s: State, i: nat, ok: bool): State
    requires ConfigOk(c) && InTurn(c, s, i)
  {
    var t := s.tasks[i];
    var after := WithTask(s, i, Task(t.message, t.outcomes + [ok], Ready, false));
    if ok then after
    else Queued(c, after, t.message).(copies := s.copies + [Copy(t.message, i, |t.outcomes|)])
  }

  function TaskPosted(c: Config, s: State, i: nat, ok: bool): State
    requires InTurn(c, s, i)
  {
    s.(posts := s.posts + [Post(TurnUrl(c, s, i), s.tasks[i].message, ok, InTask(i, |s.tasks[i].outcomes|))])
  }

  /** The error of marking a failure leaves `_post_async`, and nothing catches it. */
  function TaskDies(s: State, i: nat): State
    requires i < |s.tasks|
  {
    WithTask(s, i, s.tasks[i].(phase := Ready, dead := true))
  }

  /** The handler of a failed post marks the failure. */
  function TaskFailed(c: Config, s: State, i: nat, now: real): State
    requires ConfigOk(c) && InTurn(c, s, i)
  {
    var url := TurnUrl(c, s, i);
    var marked := Marking(c, s, url, false, now);
    if Raises(c.settings, s.failures, url, false) then TaskDies(marked, i) else TurnOver(c, marked, i, false)
  }

  function TaskDone(c: Config, s: State, i: nat, answer: Answer, now: real): State
    requires ConfigOk(c) && InTurn(c, s, i)
  {
    var url, posted := TurnUrl(c, s, i), TaskPosted(c, s, i, answer.Success?);
    if answer.Failure? then TaskFailed(c, posted, i, now)
    else
      var leaving := Leaving(answer.Success?, Raises(c.settings, s.failures, url, answer.Success?));
      WithTask(Marking(c, posted, url, answer.Success?, now), i, s.tasks[i].(phase := leaving))
  }

  /** Back from the session: a success is marked a second time, an error goes to the handler. */
  function TaskLeft(c: Config, s: State, i: nat, now: real): State
    requires ConfigOk(c) && InTurn(c, s, i) && s.tasks[i].phase.Leaving?
  {
    if s.tasks[i].phase.raised then TaskFailed(c, s, i, now)
    else if s.tasks[i].phase.ok then TurnOver(c, Marking(c, s, TurnUrl(c, s, i), true, now), i, true)
    else TurnOver(c, s, i, false)
  }

  // ---- the drain ----

  /** The drain has a message in hand. */
  predicate InHand(s: State) {
    !s.drain.dead && |s.drain.flags| < |s.drain.taken|
  }

  /** The drain is done with its message: delivered, or queued again. */
  function MessageOver(c: Config, s: State, ok: bool): State
    requires ConfigOk(c) && InHand(s)
  {
    var m := s.drain.taken[|s.drain.flags|];
    var after := s.(drain := Drain(s.drain.taken, s.drain.flags + [ok], 0, Ready, false));
    if ok then after.(retired := s.retired + multiset{m}) else Queued(c, after, m)
  }

  function NextPartner(s: State): State {
    s.(drain := s.drain.(partner := s.drain.partner + 1, phase := Ready))
  }

  function DrainFailed(c: Config, s: State, now: real): State
    requires InHand(s) && s.drain.partner < |c.partners|
  {
    var url := c.partners[s.drain.partner];
    var marked := Marking(c, s, url, false, now);
    if Raises(c.settings, s.failures, url, false) then marked.(drain := s.drain.(phase := Ready, dead := true))
    else NextPartner(marked)
  }

  function DrainAnswered(c: Config, s: State, answer: Answer, now: real): State
    requires InHand(s) && s.drain.partner < |c.partners|
  {
    var url := c.partners[s.drain.partner];
    var posted := s.(posts := s.posts + [Post(url, s.drain.taken[|s.drain.flags|], answer.Success?, FromDrain)]);
    if answer.Failure? then DrainFailed(c, posted, now)
    else
      var leaving := Leaving(answer.Success?, Raises(c.settings, s.failures, url, answer.Success?));
      Marking(c, posted, url, answer.Success?, now).(drain := s.drain.(phase := leaving))
  }

  function DrainLeft(c: Config, s: State, now: real): State
    requires ConfigOk(c) && InHand(s) && s.drain.phase.Leaving? && s.drain.partner < |c.partners|
  {
    if s.drain.phase.raised then DrainFailed(c, s, now)
    else if s.drain.phase.ok then MessageOver(c, s, true)
    else NextPartner(s)
  }

  // ---- runs ----

  /** One step; a step that is not enabled changes nothing. */
  function Next(c: Config, s: State, step: Step): State
    requires ConfigOk(c)
  {
    match step
    case Spawn(m) => s.(tasks := s.tasks + [Task(m, [], Ready, false)])
    case DispatchOn(i, now) =>
      if InTurn(c, s, i) && s.tasks[i].phase.Ready? then
        if Available(c.settings, s.failures, TurnUrl(c, s, i), now) then WithTask(s, i, s.tasks[i].(phase := Waiting))
        else TurnOver(c, s, i, false)
      else s
    case DispatchDone(i, answer, now) =>
      if InTurn(c, s, i) && s.tasks[i].phase.Waiting? then TaskDone(c, s, i, answer, now) else s
    case DispatchLeave(i, now) =>
      if InTurn(c, s, i) && s.tasks[i].phase.Leaving? then TaskLeft(c, s, i, now) else s
    case DrainWake =>
      if !s.drain.dead && s.drain.Idle() && s.queue != [] then s.(drain := Drain(s.queue, [], 0, Ready, false), queue := [])
      else s
    case DrainOn(now) =>
      if InHand(s) && s.drain.phase.Ready? then
        if s.drain.partner >= |c.partners| then MessageOver(c, s, false)
        else if Available(c.settings, s.failures, c.partners[s.drain.partner], now) then s.(drain := s.drain.(phase := Waiting))
        else NextPartner(s)
      else s
    case DrainDone(answer, now) =>
      if InHand(s) && s.drain.phase.Waiting? && s.drain.partner < |c.partners| then DrainAnswered(c, s, answer, now) else s
    case DrainLeave(now) =>
      if InHand(s) && s.drain.phase.Leaving? && s.drain.partner < |c.partners| then DrainLeft(c, s, now) else s
  }

  function Run(c: Config, s: State, steps: seq<Step>): State
    requires ConfigOk(c)
  {
    if steps == [] then s else Next(c, Run(c, s, steps[..|steps| - 1]), steps[|steps| - 1])
  }

  // ---- what a step leaves alone ----

  /** The posts so far, and at most one more. */
  predicate OneMorePost(before: seq<Post>, after: seq<Post>) {
    |before| <= |after| <= |before| + 1 && after[..|before|] == before
  }

  lemma FailedFrame(c: Config, s: State, i: nat, now: real)
    requires ConfigOk(c) && InTurn(c, s, i)
    ensures var after := TaskFailed(c, s, i, now);
            after.drain == s.drain && after.retired == s.retired && after.posts == s.posts
  {
    hide Marked, Raises, Enqueue, Evicted;
  }

  lemma DispatchFrame(c: Config, s: State, step: Step)
    requires ConfigOk(c) && (step.DispatchOn? || step.DispatchDone? || step.DispatchLeave?)
    ensures var after := Next(c, s, step);
            && after.drain == s.drain && after.retired == s.retired && OneMorePost(s.posts, after.posts)
            && (|after.posts| > |s.posts| ==> after.posts[|s.posts|].origin.InTask?)
  {
    hide Marked, Raises, Available, Enqueue, Evicted, TaskFailed;
    var i := step.i;
    if InTurn(c, s, i) {
      FailedFrame(c, s, i, step.now);
      FailedFrame(c, TaskPosted(c, s, i, false), i, step.now);
    }
  }

  lemma OtherFrame(c: Config, s: State, step: Step)
    requires ConfigOk(c) && (step.Spawn? || step.DrainWake? || DrainStep(step))
    ensures var after := Next(c, s, step);
            && after.tasks == (if step.Spawn? then s.tasks + [Task(step.message, [], Ready, false)] else s.tasks)
            && after.copies == s.copies && OneMorePost(s.posts, after.posts)
            && (|after.posts| > |s.posts| ==> after.posts[|s.posts|].origin.FromDrain?)
  {
    hide Marked, Raises, Available, Enqueue, Evicted, DrainAnswered;
    if step.DrainDone? && InHand(s) && s.drain.partner < |c.partners| {
      AnsweredFrame(c, s, step.answer, step.now);
    }
  }

  lemma AnsweredFrame(c: Config, s: State, answer: Answer, now: real)
    requires InHand(s) && s.drain.partner < |c.partners|
    ensures var after := DrainAnswered(c, s, answer, now);
            && after.tasks == s.tasks && after.copies == s.copies && OneMorePost(s.posts, after.posts)
            && (|after.posts| > |s.posts| ==> after.posts[|s.posts|].origin.FromDrain?)
  {
    hide Marked, Raises;
  }

  // ---- conservation ----

  /** The copies ever queued by dispatch tasks. */
  function Sent(copies: seq<Copy>): multiset<Message> {
    if copies == [] then multiset{} else Sent(copies[..|copies| - 1]) + multiset{copies[|copies| - 1].message}
  }

  /** What the drain took and is not done with. */
  function Held(d: Drain): multiset<Message> {
    if |d.flags| <= |d.taken| then multiset(d.taken[|d.flags|..]) else multiset{}
  }

  /** Where copies are: in the queue, held by the drain, retired, or evicted. */
  function Accounted(s: State): multiset<Message> {
    multiset(s.queue) + Held(s.drain) + s.retired + s.evicted
  }

  ghost predicate Conserved(c: Config, s: State) {
    && |s.drain.flags| <= |s.drain.taken| && (s.drain.dead ==> |s.drain.flags| < |s.drain.taken|)
    && |s.queue| <= c.settings.cap
    && Sent(s.copies) == Accounted(s)
  }

  lemma SentAppend(copies: seq<Copy>, x: Copy)
    ensures Sent(copies + [x]) == Sent(copies) + multiset{x.message}
  {
    assert (copies + [x])[..|copies|] == copies;
  }

  lemma EnqueueAccounts(queue: seq<Message>, cap: nat, m: Message)
    requires cap >= 1
    ensures multiset(Enqueue(queue, cap, m)) + multiset(Evicted(queue, cap)) == multiset(queue) + multiset{m}
  {
    if |queue| >= cap {
      assert queue == [queue[0]] + queue[1..];
    }
  }

  lemma QueuedAccounts(c: Config, s: State, m: Message)
    requires ConfigOk(c)
    ensures Accounted(Queued(c, s, m)) == Accounted(s) + multiset{m}
  {
    EnqueueAccounts(s.queue, c.settings.cap, m);
    hide Enqueue, Evicted, Held;
    var after, out := Queued(c, s, m), multiset(Evicted(s.queue, c.settings.cap));
    Exchange(multiset(after.queue), out, multiset(s.queue), multiset{m}, Held(s.drain) + s.retired + s.evicted);
    assert Accounted(after) == multiset(after.queue) + (Held(s.drain) + s.retired + s.evicted) + out;
    assert Accounted(s) == multiset(s.queue) + (Held(s.drain) + s.retired + s.evicted);
  }

  lemma Exchange<T>(a: multiset<T>, b: multiset<T>, x: multiset<T>, y: multiset<T>, rest: multiset<T>)
    requires a + b == x + y
    ensures a + rest + b == x + rest + y
  {
    assert a + rest + b == (a + b) + rest && x + rest + y == (x + y) + rest;
  }

  lemma TurnOverConserves(c: Config, s: State, i: nat, ok: bool)
    requires ConfigOk(c) && Conserved(c, s) && InTurn(c, s, i)
    ensures Conserved(c, TurnOver(c, s, i, ok))
  {
    var t := s.tasks[i];
    SentAppend(s.copies, Copy(t.message, i, |t.outcomes|));
    QueuedAccounts(c, WithTask(s, i, Task(t.message, t.outcomes + [ok], Ready, false)), t.message);
  }

  lemma MessageOverConserves(c: Config, s: State, ok: bool)
    requires ConfigOk(c) && Conserved(c, s) && InHand(s)
    ensures Conserved(c, MessageOver(c, s, ok))
  {
    var n := |s.drain.flags|;
    var m := s.drain.taken[n];
    assert s.drain.taken[n..] == [m] + s.drain.taken[n + 1..];
    var moved := s.(drain := Drain(s.drain.taken, s.drain.flags + [ok], 0, Ready, false));
    assert Accounted(moved) + multiset{m} == Accounted(s);
    QueuedAccounts(c, moved, m);
  }

  /** Changes elsewhere keep the account. */
  lemma ElsewhereConserves(c: Config, s: State, after: State)
    requires Conserved(c, s)
    requires after.queue == s.queue && after.copies == s.copies && after.retired == s.retired && after.evicted == s.evicted
    requires after.drain.taken == s.drain.taken && after.drain.flags == s.drain.flags
    requires after.drain.dead ==> |s.drain.flags| < |s.drain.taken|
    ensures Conserved(c, after)
  {
  }

  lemma TaskFailedConserves(c: Config, s: State, i: nat, now: real)
    requires ConfigOk(c) && Conserved(c, s) && InTurn(c, s, i)
    ensures Conserved(c, TaskFailed(c, s, i, now))
  {
    var marked := Marking(c, s, TurnUrl(c, s, i), false, now);
    ElsewhereConserves(c, s, marked);
    ElsewhereConserves(c, s, TaskDies(marked, i));
    TurnOverConserves(c, marked, i, false);
  }

  lemma DispatchConserves(c: Config, s: State, step: Step)
    requires ConfigOk(c) && Conserved(c, s) && (step.DispatchOn? || step.DispatchDone? || step.DispatchLeave?)
    ensures Conserved(c, Next(c, s, step))
  {
    hide Accounted, Available, Raises, Sent;
    var i := step.i;
    if InTurn(c, s, i) {
      match step {
        case DispatchOn(_, now) =>
          TurnOverConserves(c, s, i, false);
          ElsewhereConserves(c, s, WithTask(s, i, s.tasks[i].(phase := Waiting)));
        case DispatchDone(_, answer, now) =>
          ElsewhereConserves(c, s, TaskPosted(c, s, i, answer.Success?));
          if answer.Failure? {
            TaskFailedConserves(c, TaskPosted(c, s, i, false), i, now);
          } else {
            ElsewhereConserves(c, s, TaskDone(c, s, i, answer, now));
          }
        case DispatchLeave(_, now) =>
          var marked := Marking(c, s, TurnUrl(c, s, i), true, now);
          ElsewhereConserves(c, s, marked);
          TaskFailedConserves(c, s, i, now);
          TurnOverConserves(c, s, i, false);
          TurnOverConserves(c, marked, i, true);
      }
    }
  }

  lemma DrainConserves(c: Config, s: State, step: Step)
    requires ConfigOk(c) && Conserved(c, s) && DrainStep(step)
    ensures Conserved(c, Next(c, s, step))
  {
    hide Accounted, Available, Raises, Sent, MessageOver;
    if InHand(s) {
      MessageOverConserves(c, s, step.DrainLeave?);
      if step.DrainOn? {
        ElsewhereConserves(c, s, s.(drain := s.drain.(phase := Waiting)));
        ElsewhereConserves(c, s, NextPartner(s));
      } else if s.drain.partner < |c.partners| && !(step.DrainLeave? && s.drain.phase == Leaving(true, false)) {
        ElsewhereConserves(c, s, Next(c, s, step));
      }
    }
  }

  lemma WakeConserves(c: Config, s: State)
    requires ConfigOk(c) && Conserved(c, s)
    ensures Conserved(c, Next(c, s, DrainWake))
  {
    assert s.drain.Idle() ==> s.drain.taken[|s.drain.flags|..] == [];
    assert s.queue[0..] == s.queue;
  }

  predicate DrainStep(step: Step) {
    step.DrainOn? || step.DrainDone? || step.DrainLeave?
  }

  lemma NextConserves(c: Config, s: State, step: Step)
    requires ConfigOk(c) && Conserved(c, s)
    ensures Conserved(c, Next(c, s, step))
  {
    if step.Spawn? {
      ElsewhereConserves(c, s, Next(c, s, step));
    } else if step.DrainWake? {
      WakeConserves(c, s);
    } else if DrainStep(step) {
      DrainConserves(c, s, step);
    } else {
      DispatchConserves(c, s, step);
    }
  }

  lemma {:induction false} RunConserves(c: Config, steps: seq<Step>)
    requires ConfigOk(c)
    ensures Conserved(c, Run(c, START, steps))
  {
    if steps != [] {
      RunConserves(c, steps[..|steps| - 1]);
      NextConserves(c, Run(c, START, steps[..|steps| - 1]), steps[|steps| - 1]);
    }
  }

  /** The copies the drain loop can still deliver. */
  function HeldLive(d: Drain): multiset<Message> {
    if d.dead then multiset{} else Held(d)
  }

  /** In every interleaving the queue stays within its cap, and copies ever queued are in the queue,
      held by the drain loop, retired by an accepted post, or evicted at the cap, exactly while no
      uncaught error has ended the drain loop; from then on those it held are lost. */
  lemma CopiesConserved(c: Config, steps: seq<Step>)
    requires ConfigOk(c)
    ensures var s := Run(c, START, steps);
            && |s.queue| <= c.settings.cap
            && Sent(s.copies) == multiset(s.queue) + Held(s.drain) + s.retired + s.evicted
            && (!s.drain.dead <==> Sent(s.copies) == multiset(s.queue) + HeldLive(s.drain) + s.retired + s.evicted)
  {
    RunConserves(c, steps);
    var s := Run(c, START, steps);
    if s.drain.dead {
      var m := s.drain.taken[|s.drain.flags|];
      assert m in s.drain.taken[|s.drain.flags|..];
      assert Sent(s.copies)[m] > (multiset(s.queue) + s.retired + s.evicted)[m];
    }
  }
}
