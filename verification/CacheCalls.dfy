/** Which call each reply answers: the calls of a thread, from the step that starts one to the step
    that answers it, whatever the other threads do meanwhile. */
module CacheCalls {
  import opened Bytes
  import opened CacheState
  import opened SpillFile
  import opened CacheSteps
  import opened CacheLeave
  import opened CacheThreads
  import opened CacheClock
  import opened CacheImage
  import opened CacheSections

  /** The thread that takes the step, if it is not one of the clock or of the whole store. */
  function TurnOf(step: Step): Option<nat> {
    match step
    case Pick(_, _, _) => None
    case Evict(_, _) => None
    case SetCapacity(_) => None
    case EnableSpill => None
    case DisableSpill => None
    case Checkpoint(_) => None
    case _ => Some(step.t)
  }

  /** The thread still has to be answered. */
  ghost predicate Owes(task: Task) { Reads(task) || Writes(task) }

  /** The call the thread goes on with is the one the step started. */
  ghost predicate Asked(step: Step, u: nat, task: Task) {
    if Reads(task) then step == StartRead(u, task.id)
    else if Writes(task) then
      if task.newly then step.StartAllocate? && step.t == u else step == StartWrite(u, task.id, task.page)
    else false
  }

  /** The frame of a latched write is still its page's. */
  ghost predicate StillIts(s: State, task: Task)
    requires task.PutLatched?
  {
    task.id in s.dir && s.dir[task.id] == task.frame
  }

  // One step -------------------------------------------------------------------------------------

  predicate InRead(step: Step) {
    step.StartRead? || step.Locate? || step.ReadFrame? || step.Load? || step.Install?
  }

  predicate InWrite(step: Step) {
    step.StartWrite? || step.Lookup? || step.CheckFrame? || step.WriteFrame? || step.CountFrame? || step.WriteNew?
  }

  ghost predicate SameTask(s: State, s2: State, u: nat) {
    (u in s2.tasks <==> u in s.tasks) && (u in s.tasks ==> s2.tasks[u] == s.tasks[u])
  }

  lemma OthersInRead(fix: Page -> Page, s: State, step: Step, s2: State, r: Reply, u: nat)
    requires InRead(step) && Next(fix, s, step, s2, r) && TurnOf(step) != Some(u)
    ensures SameTask(s, s2, u)
  {
  }

  lemma OthersInWrite(fix: Page -> Page, s: State, step: Step, s2: State, r: Reply, u: nat)
    requires InWrite(step) && Next(fix, s, step, s2, r) && TurnOf(step) != Some(u)
    ensures SameTask(s, s2, u)
  {
  }

  lemma OthersElse(fix: Page -> Page, s: State, step: Step, s2: State, r: Reply, u: nat)
    requires !InRead(step) && !InWrite(step) && Next(fix, s, step, s2, r) && TurnOf(step) != Some(u)
    ensures SameTask(s, s2, u)
  {
  }

  /** A section leaves every thread but its own where it was. */
  lemma OthersWait(fix: Page -> Page, s: State, step: Step, s2: State, r: Reply, u: nat)
    requires Next(fix, s, step, s2, r) && TurnOf(step) != Some(u)
    ensures SameTask(s, s2, u)
  {
    hide Next, SameTask;
    if InRead(step) { OthersInRead(fix, s, step, s2, r, u); }
    else if InWrite(step) { OthersInWrite(fix, s, step, s2, r, u); }
    else { OthersElse(fix, s, step, s2, r, u); }
  }

  ghost predicate SameCall(a: Task, b: Task) {
    || (Reads(a) && Reads(b) && a.id == b.id)
    || (Writes(a) && Writes(b) && a.id == b.id && a.page == b.page && a.newly == b.newly)
  }

  /** The reply is one to this task. */
  ghost predicate Replies(s: State, step: Step, task: Task, r: Reply) {
    match r
    case Value(id, _) => Reads(task) && task.id == id
    case NoPage(id) => Reads(task) && task.id == id
    case Failed(id) => Reads(task) && task.id == id && step.Load? && step.fails
    case Wrote(id, page) => Writes(task) && !task.newly && task.id == id && task.page == page
    case Allocated(id) => Writes(task) && task.newly && task.id == id
    case Missed(id) => task.PutLatched? && task.id == id && !StillIts(s, task)
    case _ => false
  }

  /** What a thread's own step does: nothing, start a call, answer one at once, go on with one, answer
      one, or tidy up after one. */
  ghost predicate OwnTurn(s: State, step: Step, s2: State, r: Reply, u: nat) {
    var now, next := if u in s.tasks then Some(s.tasks[u]) else None, if u in s2.tasks then Some(s2.tasks[u]) else None;
    var owed, owes := now.Some? && Owes(now.value), next.Some? && Owes(next.value);
    || (s2 == s && r == Silent && !(now.None? && (step.StartRead? || step.StartWrite? || step.StartAllocate?)))
    || (now.None? && r == Silent && owes && Asked(step, u, next.value) && !next.value.PutLatched?)
    || (now.None? && step.StartWrite? && r == Refused(step.id) && step.id >= s.nextId && !owes)
    || (now.None? && step.StartFree? && r == Freed(step.id) && step.id in s.owned && !owes)
    || (owed && r == Silent && owes && SameCall(now.value, next.value)
        && (next.value.PutLatched? ==> StillIts(s2, next.value)))
    || (owed && r != Silent && Replies(s, step, now.value, r) && !owes)
    || (now.Some? && !owed && r == Silent && !owes)
  }

  lemma TurnInRead(fix: Page -> Page, s: State, step: Step, s2: State, r: Reply, u: nat)
    requires InRead(step) && Next(fix, s, step, s2, r) && TurnOf(step) == Some(u)
    ensures OwnTurn(s, step, s2, r, u)
  {
  }

  lemma TurnInLookup(fix: Page -> Page, s: State, step: Step, s2: State, r: Reply, u: nat)
    requires (step.StartWrite? || step.Lookup? || step.CheckFrame?) && Next(fix, s, step, s2, r) && TurnOf(step) == Some(u)
    ensures OwnTurn(s, step, s2, r, u)
  {
    hide Replies;
  }

  lemma TurnInFrame(fix: Page -> Page, s: State, step: Step, s2: State, r: Reply, u: nat)
    requires (step.WriteFrame? || step.CountFrame?) && Next(fix, s, step, s2, r) && TurnOf(step) == Some(u)
    ensures OwnTurn(s, step, s2, r, u)
  {
    hide SameCall;
  }

  lemma TurnInNew(fix: Page -> Page, s: State, step: Step, s2: State, r: Reply, u: nat)
    requires step.WriteNew? && Next(fix, s, step, s2, r) && TurnOf(step) == Some(u)
    ensures OwnTurn(s, step, s2, r, u)
  {
  }

  lemma TurnInPages(fix: Page -> Page, s: State, step: Step, s2: State, r: Reply, u: nat)
    requires (step.StartAllocate? || step.StartFree?) && Next(fix, s, step, s2, r) && TurnOf(step) == Some(u)
    ensures OwnTurn(s, step, s2, r, u)
  {
    hide Replies, SameCall, StillIts;
  }

  lemma TurnAfter(fix: Page -> Page, s: State, step: Step, s2: State, r: Reply, u: nat)
    requires (step.FinishFree? || step.PushClock?) && Next(fix, s, step, s2, r) && TurnOf(step) == Some(u)
    ensures OwnTurn(s, step, s2, r, u)
  {
    hide Replies, SameCall, StillIts, Asked, TicksOver;
  }

  lemma TakesTurn(fix: Page -> Page, s: State, step: Step, s2: State, r: Reply, u: nat)
    requires Next(fix, s, step, s2, r) && TurnOf(step) == Some(u)
    ensures OwnTurn(s, step, s2, r, u)
  {
    hide Next, OwnTurn;
    if InRead(step) { TurnInRead(fix, s, step, s2, r, u); }
    else if step.StartWrite? || step.Lookup? || step.CheckFrame? { TurnInLookup(fix, s, step, s2, r, u); }
    else if step.WriteFrame? || step.CountFrame? { TurnInFrame(fix, s, step, s2, r, u); }
    else if step.WriteNew? { TurnInNew(fix, s, step, s2, r, u); }
    else if step.StartAllocate? || step.StartFree? { TurnInPages(fix, s, step, s2, r, u); }
    else { TurnAfter(fix, s, step, s2, r, u); }
  }

  lemma LatchKeptInCalls(fix: Page -> Page, s: State, step: Step, s2: State, r: Reply, u: nat)
    requires (InRead(step) || InWrite(step)) && Next(fix, s, step, s2, r)
    requires u in s.tasks && s.tasks[u].PutLatched? && StillIts(s, s.tasks[u])
    ensures StillIts(s2, s.tasks[u])
  {
    hide Located, Checked, LookedUp, Latched;
  }

  lemma LatchKeptElse(fix: Page -> Page, s: State, step: Step, s2: State, r: Reply, u: nat)
    requires !InRead(step) && !InWrite(step) && Next(fix, s, step, s2, r)
    requires u in s.tasks && s.tasks[u].PutLatched? && StillIts(s, s.tasks[u])
    ensures StillIts(s2, s.tasks[u]) || (step.StartFree? && step.id == s.tasks[u].id && r == Freed(step.id))
  {
    hide TicksOver, Sweeps, MadeFrom;
  }

  /** Only freeing the page takes a latched write's frame away. */
  lemma LatchLost(fix: Page -> Page, s: State, step: Step, s2: State, r: Reply, u: nat)
    requires Next(fix, s, step, s2, r) && u in s.tasks && s.tasks[u].PutLatched? && StillIts(s, s.tasks[u])
    requires !StillIts(s2, s.tasks[u])
    ensures step.StartFree? && step.id == s.tasks[u].id && r == Freed(step.id)
  {
    hide Next, StillIts;
    if InRead(step) || InWrite(step) { LatchKeptInCalls(fix, s, step, s2, r, u); } else { LatchKeptElse(fix, s, step, s2, r, u); }
  }

  // The calls so far -----------------------------------------------------------------------------

  /** Step `j` began the call thread `u` is in the middle of after `n` steps: none of its steps since
      has been answered. */
  ghost predicate CallOf(steps: seq<Step>, replies: seq<Reply>, n: nat, u: nat, j: nat) {
    && j < n <= |steps| && n <= |replies|
    && TurnOf(steps[j]) == Some(u) && replies[j] == Silent
    && forall m {:trigger replies[m]} :: j < m < n && TurnOf(steps[m]) == Some(u) ==> replies[m] == Silent
  }

  /** Page `id` was not live at some moment from step `j` on, up to moment `n`. */
  ghost predicate GoneSince(past: seq<map<nat, Page>>, id: nat, j: nat, n: nat) {
    exists k: nat {:trigger past[k]} :: j <= k <= n && k < |past| && id !in past[k]
  }

  /** Step `j` began what thread `u` is doing, and its page was freed since if its frame is gone. */
  ghost predicate CallFor(s: State, past: seq<map<nat, Page>>, steps: seq<Step>, n: nat, u: nat, j: nat) {
    && j < |steps| && u in s.tasks && Asked(steps[j], u, s.tasks[u])
    && (s.tasks[u].PutLatched? && !StillIts(s, s.tasks[u]) ==> GoneSince(past, s.tasks[u].id, j, n))
  }

  ghost predicate Traced(s: State, past: seq<map<nat, Page>>, steps: seq<Step>, replies: seq<Reply>, n: nat, u: nat) {
    u in s.tasks && Owes(s.tasks[u]) ==>
      exists j: nat {:trigger CallOf(steps, replies, n, u, j)} ::
        CallOf(steps, replies, n, u, j) && CallFor(s, past, steps, n, u, j)
  }

  ghost predicate AllTraced(s: State, past: seq<map<nat, Page>>, steps: seq<Step>, replies: seq<Reply>, n: nat) {
    forall u: nat {:trigger Traced(s, past, steps, replies, n, u)} :: Traced(s, past, steps, replies, n, u)
  }

  /** What a reply says about the call it answers: every reply but `Silent` belongs to exactly one call
      of its thread, and to the page that call named. */
  ghost predicate Justified(past: seq<map<nat, Page>>, steps: seq<Step>, replies: seq<Reply>, i: nat) {
    i < |steps| && i < |replies| && i < |past| &&
    var t := TurnOf(steps[i]);
    match replies[i]
    case Silent => true
    case Value(id, _) => t.Some? && exists j: nat :: CallOf(steps, replies, i, t.value, j) && steps[j] == StartRead(t.value, id)
    case NoPage(id) => t.Some? && exists j: nat :: CallOf(steps, replies, i, t.value, j) && steps[j] == StartRead(t.value, id)
    case Failed(id) =>
      steps[i].Load? && steps[i].fails && t.Some?
      && exists j: nat :: CallOf(steps, replies, i, t.value, j) && steps[j] == StartRead(t.value, id)
    case Refused(id) =>
      && steps[i].StartWrite? && steps[i].id == id
      && forall k: nat {:trigger past[k]} :: k <= i ==> id !in past[k]
    case Wrote(id, page) =>
      t.Some? && exists j: nat :: CallOf(steps, replies, i, t.value, j) && steps[j] == StartWrite(t.value, id, page)
    case Missed(id) =>
      t.Some? && exists j: nat ::
        && CallOf(steps, replies, i, t.value, j)
        && steps[j].StartWrite? && steps[j].id == id && GoneSince(past, id, j, i)
    case Allocated(id) =>
      && id !in past[i]
      && t.Some? && exists j: nat :: CallOf(steps, replies, i, t.value, j) && steps[j].StartAllocate?
    case Freed(id) => steps[i].StartFree? && steps[i].id == id && id in past[i]
  }

  /** No call is dropped: a thread that is owed an answer still is after the step, for the same call,
      or the step has answered it; and a thread that starts a call gets an answer or is owed one. */
  ghost predicate NotDropped(s: State, step: Step, s2: State, r: Reply, u: nat) {
    var owed, owes := u in s.tasks && Owes(s.tasks[u]), u in s2.tasks && Owes(s2.tasks[u]);
    && (owed ==> (owes && SameCall(s.tasks[u], s2.tasks[u])) || (TurnOf(step) == Some(u) && r != Silent))
    && (u !in s.tasks && TurnOf(step) == Some(u) && (step.StartRead? || step.StartWrite? || step.StartAllocate?) ==> owes || r != Silent)
  }

  lemma NothingDropped(fix: Page -> Page, s: State, step: Step, s2: State, r: Reply, u: nat)
    requires Next(fix, s, step, s2, r)
    ensures NotDropped(s, step, s2, r, u)
  {
    hide Next, Asked, Replies, StillIts;
    if TurnOf(step) == Some(u) { TakesTurn(fix, s, step, s2, r, u); } else { OthersWait(fix, s, step, s2, r, u); }
  }

  lemma CallGoesOn(steps: seq<Step>, replies: seq<Reply>, r: Reply, n: nat, u: nat, j: nat)
    requires |replies| == n < |steps| && CallOf(steps, replies, n, u, j) && (TurnOf(steps[n]) == Some(u) ==> r == Silent)
    ensures CallOf(steps, replies + [r], n + 1, u, j)
  {
  }

  lemma GoneStill(past: seq<map<nat, Page>>, past2: seq<map<nat, Page>>, id: nat, j: nat, n: nat)
    requires past <= past2 && GoneSince(past, id, j, n)
    ensures GoneSince(past2, id, j, n + 1) && GoneSince(past2, id, j, n)
  {
    var k: nat :| j <= k <= n && k < |past| && id !in past[k];
    assert past2[k] == past[k];
  }

  lemma TracedByOthers(fix: Page -> Page, s: State, s2: State, past: seq<map<nat, Page>>, past2: seq<map<nat, Page>>,
                       steps: seq<Step>, replies: seq<Reply>, r: Reply, n: nat, u: nat)
    requires |replies| == n < |steps| && |past| == n + 1 && |past2| == n + 2 && past <= past2
    requires Next(fix, s, steps[n], s2, r) && past2[n + 1] == Apply(past[n], r)
    requires Traced(s, past, steps, replies, n, u) && TurnOf(steps[n]) != Some(u)
    ensures Traced(s2, past2, steps, replies + [r], n + 1, u)
  {
    hide Next, GoneSince;
    OthersWait(fix, s, steps[n], s2, r, u);
    if u in s2.tasks && Owes(s2.tasks[u]) {
      var task := s.tasks[u];
      var j: nat :| CallOf(steps, replies, n, u, j) && CallFor(s, past, steps, n, u, j);
      CallGoesOn(steps, replies, r, n, u, j);
      if task.PutLatched? && !StillIts(s2, task) {
        if StillIts(s, task) {
          LatchLost(fix, s, steps[n], s2, r, u);
          GoneNow(past2, steps, replies + [r], task.id, u, j, n + 1);
        } else {
          GoneStill(past, past2, task.id, j, n);
        }
      }
    }
  }

  lemma GoneNow(past: seq<map<nat, Page>>, steps: seq<Step>, replies: seq<Reply>, id: nat, u: nat, j: nat, n: nat)
    requires CallOf(steps, replies, n, u, j) && n < |past| && id !in past[n]
    ensures GoneSince(past, id, j, n)
  {
  }

  lemma TracedByOwn(fix: Page -> Page, s: State, s2: State, past: seq<map<nat, Page>>, past2: seq<map<nat, Page>>,
                    steps: seq<Step>, replies: seq<Reply>, r: Reply, n: nat, u: nat)
    requires |replies| == n < |steps| && |past| == n + 1 && |past2| == n + 2 && past <= past2
    requires Next(fix, s, steps[n], s2, r)
    requires Traced(s, past, steps, replies, n, u) && TurnOf(steps[n]) == Some(u)
    ensures Traced(s2, past2, steps, replies + [r], n + 1, u)
  {
    hide Next, GoneSince, Replies;
    TakesTurn(fix, s, steps[n], s2, r, u);
    var all := replies + [r];
    if u in s2.tasks && Owes(s2.tasks[u]) {
      if u !in s.tasks {
        assert CallOf(steps, all, n + 1, u, n);
      } else {
        var task := s.tasks[u];
        var j: nat :| CallOf(steps, replies, n, u, j) && CallFor(s, past, steps, n, u, j);
        CallGoesOn(steps, replies, r, n, u, j);
        if s2 == s && task.PutLatched? && !StillIts(s, task) { GoneStill(past, past2, task.id, j, n); }
      }
    }
  }

  lemma AllStayTraced(fix: Page -> Page, s: State, s2: State, past: seq<map<nat, Page>>, past2: seq<map<nat, Page>>,
                      steps: seq<Step>, replies: seq<Reply>, r: Reply, n: nat)
    requires |replies| == n < |steps| && |past| == n + 1 && |past2| == n + 2 && past <= past2
    requires Next(fix, s, steps[n], s2, r) && past2[n + 1] == Apply(past[n], r)
    requires AllTraced(s, past, steps, replies, n)
    ensures AllTraced(s2, past2, steps, replies + [r], n + 1)
  {
    hide Next, Traced;
    var all, m := replies + [r], n + 1;
    forall u: nat ensures Traced(s2, past2, steps, all, m, u) {
      assert Traced(s, past, steps, replies, n, u);
      if TurnOf(steps[n]) == Some(u) { TracedByOwn(fix, s, s2, past, past2, steps, replies, r, n, u); }
      else { TracedByOthers(fix, s, s2, past, past2, steps, replies, r, n, u); }
    }
  }

  /** Only ids handed out so far have ever been live. */
  ghost predicate Below(past: seq<map<nat, Page>>, next: nat) {
    forall k: nat, id: nat {:trigger id in past[k]} :: k < |past| && id in past[k] ==> id < next
  }

  lemma IdsGrow(fix: Page -> Page, s: State, step: Step, s2: State, r: Reply)
    requires Next(fix, s, step, s2, r)
    ensures s.nextId <= s2.nextId
  {
  }

  lemma BelowStays(fix: Page -> Page, s: State, step: Step, s2: State, r: Reply, h: History, past: seq<map<nat, Page>>)
    requires Next(fix, s, step, s2, r) && Inv(s2, h) && Below(past, s.nextId) && h.past == past + [Live(h)]
    ensures Below(h.past, s2.nextId)
  {
    hide Next;
    IdsGrow(fix, s, step, s2, r);
    forall id: nat | id in Live(h) ensures id < s2.nextId { assert IdOk(s2, id); }
  }

  lemma NoTurnNoReply(fix: Page -> Page, s: State, step: Step, s2: State, r: Reply)
    requires Next(fix, s, step, s2, r) && TurnOf(step).None?
    ensures r == Silent
  {
  }

  lemma OwnersKnown(s: State, h: History, u: nat)
    requires Inv(s, h) && u in s.tasks && h.past != []
    ensures Writes(s.tasks[u]) && s.tasks[u].newly ==> s.tasks[u].id !in h.past[|h.past| - 1]
    ensures s.tasks[u].PutLatched? && !StillIts(s, s.tasks[u]) ==> !s.tasks[u].newly
    ensures s.owned == h.past[|h.past| - 1].Keys
  {
    assert TaskOk(s, h, u);
    assert Between(s, u, s.tasks[u].id) ==> BetweenOk(s, u, s.tasks[u].id);
  }

  lemma CallKept(steps: seq<Step>, replies: seq<Reply>, r: Reply, n: nat, u: nat, j: nat)
    requires |replies| == n && CallOf(steps, replies, n, u, j)
    ensures CallOf(steps, replies + [r], n, u, j)
  {
  }

  lemma StepJustified(fix: Page -> Page, s: State, h: History, s2: State, past: seq<map<nat, Page>>, steps: seq<Step>,
                      replies: seq<Reply>, r: Reply, n: nat)
    requires |replies| == n < |steps| && Inv(s, h) && past == h.past && |past| == n + 1
    requires Next(fix, s, steps[n], s2, r) && AllTraced(s, past, steps, replies, n) && Below(past, s.nextId)
    ensures Justified(past, steps, replies + [r], n)
  {
    hide Next, Inv, CallOf, GoneSince, SameCall;
    var t := TurnOf(steps[n]);
    if t.None? {
      NoTurnNoReply(fix, s, steps[n], s2, r);
    } else if r != Silent {
      var u := t.value;
      TakesTurn(fix, s, steps[n], s2, r, u);
      assert Traced(s, past, steps, replies, n, u);
      if u in s.tasks {
        OwnersKnown(s, h, u);
        var j: nat :| CallOf(steps, replies, n, u, j) && CallFor(s, past, steps, n, u, j);
        CallKept(steps, replies, r, n, u, j);
      } else {
        OwnedIsLive(s, h);
      }
    }
  }

  lemma OwnedIsLive(s: State, h: History)
    requires Inv(s, h) && h.past != []
    ensures s.owned == h.past[|h.past| - 1].Keys
  {
  }

  lemma CallEarlier(steps: seq<Step>, replies: seq<Reply>, more: seq<Reply>, i: nat, u: nat)
    requires i <= |replies|
    ensures forall j: nat {:trigger CallOf(steps, replies, i, u, j)} :: CallOf(steps, replies, i, u, j) ==> CallOf(steps, replies + more, i, u, j)
  {
  }

  lemma JustifiedLater(past: seq<map<nat, Page>>, past2: seq<map<nat, Page>>, steps: seq<Step>, replies: seq<Reply>, r: Reply, i: nat)
    requires i < |replies| && past <= past2 && Justified(past, steps, replies, i)
    ensures Justified(past2, steps, replies + [r], i)
  {
    hide GoneSince;
    var t := TurnOf(steps[i]);
    if t.Some? {
      CallEarlier(steps, replies, [r], i, t.value);
      if replies[i].Missed? {
        var j: nat :| CallOf(steps, replies, i, t.value, j) && steps[j].StartWrite? && steps[j].id == replies[i].id
                      && GoneSince(past, replies[i].id, j, i);
        GoneStill(past, past2, replies[i].id, j, i);
      }
    }
  }

  lemma JustifiedEarlier(past: seq<map<nat, Page>>, past2: seq<map<nat, Page>>, steps: seq<Step>, replies: seq<Reply>, i: nat)
    requires past <= past2 && Justified(past, steps, replies, i)
    ensures Justified(past2, steps, replies, i)
  {
    hide GoneSince;
    var t := TurnOf(steps[i]);
    if t.Some? && replies[i].Missed? {
      var j: nat :| CallOf(steps, replies, i, t.value, j) && steps[j].StartWrite? && steps[j].id == replies[i].id
                    && GoneSince(past, replies[i].id, j, i);
      GoneStill(past, past2, replies[i].id, j, i);
    }
  }
}
