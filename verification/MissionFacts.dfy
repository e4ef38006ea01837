/** What the mission's controls do to each task and agent (app/runtime.py), status by status. */
module MissionFacts {
  import opened Base
  import opened OrgTree
  import opened Events
  import opened Runtimes
  import opened OrgChanges
  import opened Closing
  import opened Approval
  import opened Missions
  import opened Text

  /** A run that ends as stopped leaves its unfinished work stopped; any other end leaves it failed. */
  lemma ConcludeFacts(s: MState, s': MState)
    requires ConcludeStep(s, s')
    ensures s.status in {MCompleted, MFailed, MStopped, MBlocked} && s'.saved == s'.status == s.status
    ensures TasksClosed(s.tasks, None, if s.status == MStopped then TStopped else TFailed, s'.tasks)
    ensures AgentsShut(s.agents, {Created, Running}, if s.status == MStopped then Stopped else AgentStatus.Failed,
                       s'.agents)
    ensures s'.answers == s.answers && s'.pending == s.pending && s'.killed == s.killed
  {
  }

  /** A pause stops the tasks and pauses the agents. */
  lemma PauseFacts(s: MState, s': MState)
    requires PauseStep(s, s')
    ensures s'.saved == s'.status == MPaused
    ensures TasksClosed(s.tasks, None, TStopped, s'.tasks)
    ensures AgentsShut(s.agents, {Created, Running}, Paused, s'.agents)
    ensures s'.answers == s.answers && s'.pending == s.pending && s'.killed == s.killed
  {
  }

  /** Stopping a mission that is not run stops paused agents too, and a finished mission keeps its status. */
  lemma IdleStopFacts(s: MState, s': MState)
    requires IdleStopStep(s, s')
    ensures if s.saved in {MCompleted, MFailed, MStopped, MBlocked} then s'.saved == s.saved && s'.status == s.status
            else s'.saved == s'.status == MStopped
    ensures TasksClosed(s.tasks, None, TStopped, s'.tasks)
    ensures AgentsShut(s.agents, {Created, Running, Paused}, Stopped, s'.agents)
    ensures s'.answers == s.answers && s'.pending == s.pending && s'.killed == s.killed
  {
  }

  /** A kill is for an agent that is still of use, in an unfinished mission; it stops that agent and its
      tasks, and nothing else. */
  lemma KillFacts(s: MState, a: Id, s': MState)
    requires KillStep(s, a, s')
    ensures s.saved !in {MCompleted, MFailed, MStopped, MBlocked}
    ensures a in s.agents && a !in s.killed && s.agents[a].status !in {Completed, AgentStatus.Failed, Stopped}
    ensures TasksClosed(s.tasks, Some(a), TStopped, s'.tasks)
    ensures s'.agents == s.agents[a := s.agents[a].(status := Stopped)] && s'.killed == s.killed + {a}
    ensures s'.saved == s.saved && s'.status == s.status && s'.answers == s.answers && s'.pending == s.pending
  {
  }

  /** Work is taken up, and reported on, only while the task is pending or running and its agent was not
      killed; task and agent change together. */
  lemma WorkFacts(s: MState, x: Id, completed: bool, output: string, s': MState)
    requires StartStep(s, x, s') || ReportStep(s, x, completed, output, s')
    ensures x in s.tasks && s.tasks[x].status in {TPending, TRunning} && s.tasks[x].agent in s.agents
    ensures s.tasks[x].agent !in s.killed
    ensures s'.tasks.Keys == s.tasks.Keys && s'.agents.Keys == s.agents.Keys
    ensures var a := s.tasks[x].agent;
            && (forall y :: y in s.tasks && y != x ==> s'.tasks[y] == s.tasks[y])
            && (forall b :: b in s.agents && b != a ==> s'.agents[b] == s.agents[b])
            && (StartStep(s, x, s') ==> s'.tasks[x] == s.tasks[x].(status := TRunning)
                                        && s'.agents[a] == s.agents[a].(status := Running))
            && (!StartStep(s, x, s') ==>
                  && s'.tasks[x] == s.tasks[x].(status := if completed then TCompleted else TBlocked,
                                                output := Some(output))
                  && s'.agents[a] == s.agents[a].(status := if completed then Completed else Blocked,
                                                  output := Some(output)))
    ensures s' == s.(tasks := s'.tasks, agents := s'.agents)
  {
  }

  /** Waiting is for work that is pending or running and not killed, with no question open. */
  lemma WaitFacts(s: MState, s': MState)
    requires WaitStep(s, s')
    ensures s.pending == None && s' == s.(status := MWaiting, saved := MWaiting)
    ensures exists x :: x in s.tasks && s.tasks[x].status in {TPending, TRunning} && s.tasks[x].agent !in s.killed
  {
    var x :| x in Unkilled(s.tasks, s.killed);
    assert s.tasks[x].status in {TPending, TRunning};
  }

  /** This action can be taken now. */
  ghost predicate CanTake(s: MState, act: Act, required: bool) {
    exists s' :: MNext(s, act, s', required)
  }

  /** While a mission runs or waits, every unfinished task can be started and reported, and waited for if no
      question is open. */
  lemma WorkCanGoOn(s: MState, required: bool, x: Id, completed: bool, output: string)
    requires RunInv(s, required) && s.status in {MRunning, MWaiting} && s.saved in {MRunning, MWaiting}
    requires x in s.tasks && s.tasks[x].status in {TPending, TRunning}
    ensures s.tasks[x].agent in s.agents ==>
              CanTake(s, StartAct(x), required) && CanTake(s, ReportAct(x, completed, output), required)
    ensures s.pending == None ==> CanTake(s, WaitAct, required)
  {
    hide FinishStep, AssignStep, KillStep, ConcludeStep, PauseStep, IdleStopStep, RecoverStep, OrgMove, Suspended;
    assert x in Unkilled(s.tasks, s.killed);
    assert s.pending == None ==> MNext(s, WaitAct, s.(status := MWaiting, saved := MWaiting), required);
    var a := s.tasks[x].agent;
    if a in s.agents {
      var done := s.tasks[x].(status := if completed then TCompleted else TBlocked, output := Some(output));
      var row := s.agents[a].(status := if completed then Completed else Blocked, output := Some(output));
      assert MNext(s, StartAct(x), s.(tasks := s.tasks[x := s.tasks[x].(status := TRunning)],
                                      agents := s.agents[a := s.agents[a].(status := Running)]), required);
      assert MNext(s, ReportAct(x, completed, output),
                   s.(tasks := s.tasks[x := done], agents := s.agents[a := row]), required);
    }
  }

  /** And the run itself is never stuck: it can carry on, be paused or be ended, and ask if no question is open. */
  lemma RunsCanGoOn(s: MState, required: bool, q: Question, to: MissionStatus)
    requires RunInv(s, required) && s.status in {MRunning, MWaiting} && s.saved in {MRunning, MWaiting}
    ensures CanTake(s, CarryOnAct, required) && CanTake(s, PauseAct, required)
    ensures to in {MFailed, MStopped, MBlocked} ==> CanTake(s, EndAct(to), required)
    ensures s.pending == None && (forall x :: x in s.tasks ==> s.tasks[x].status !in {TPending, TRunning}) ==>
              CanTake(s, AskAct(q), required)
  {
    hide FinishStep, AssignStep, KillStep, ConcludeStep, IdleStopStep, RecoverStep, OrgMove, Suspended;
    assert MNext(s, CarryOnAct, s.(status := MRunning, saved := MRunning), required);
    assert MNext(s, PauseAct, s.(tasks := Closed(s.tasks, None, TStopped),
                                 agents := Shut(s.agents, {Created, Running}, Paused),
                                 status := MPaused, saved := MPaused), required);
    assert to in {MFailed, MStopped, MBlocked} ==> MNext(s, EndAct(to), s.(status := to), required);
    assert s.pending == None ==>
             MNext(s, AskAct(q), s.(pending := Some(q), status := MWaiting, saved := MWaiting), required);
  }

  /** Had the agent a task that was cut off? */
  ghost predicate CutOff(t: TaskTable, a: Id) {
    exists x :: x in t && t[x].agent == a && t[x].status in {TPending, TRunning}
  }

  /** A run taken up again stops the tasks that were cut off.  Their agents, and those that were paused, start
      over without output; a root that is not finished runs; all others stay as they are. */
  lemma RestartFacts(s: MState, r: Id, s': MState)
    requires RecoverStep(s, r, s')
    ensures s'.saved == s'.status == MRunning && s'.answers == s.answers && s'.pending == s.pending
    ensures TasksClosed(s.tasks, None, TStopped, s'.tasks) && s'.agents.Keys == s.agents.Keys
    ensures forall a :: a in s.agents && a != r ==>
              s'.agents[a] == if CutOff(s.tasks, a) || s.agents[a].status == Paused
                              then s.agents[a].(status := Created, output := None) else s.agents[a]
    ensures r in s.agents ==>
              s'.agents[r] == if CutOff(s.tasks, r) || s.agents[r].status == Paused
                              then s.agents[r].(status := Running, output := None)
                              else if s.agents[r].status in {Created, Blocked} then s.agents[r].(status := Running)
                              else s.agents[r]
  {
    forall a ensures a in Interrupted(s.tasks) <==> CutOff(s.tasks, a) {
      if x :| x in s.tasks && s.tasks[x].agent == a && s.tasks[x].status in {TPending, TRunning} {
        assert InFlight(s.tasks[x].status);
      }
    }
    forall a | a in s.agents
      ensures s'.agents[a]
              == if a == r
                    && Restarted(s.agents[a], a in Interrupted(s.tasks), true).status in {Created, Running, Blocked}
                 then Restarted(s.agents[a], a in Interrupted(s.tasks), true).(status := Running)
                 else Restarted(s.agents[a], a in Interrupted(s.tasks), a == r)
    {
    }
  }

  /** New tasks go to agents below the root that are created or running, were not killed, and have no task
      but stopped and failed ones. */
  lemma AssignFacts(s: MState, s': MState)
    requires AssignStep(s, s')
    ensures s' == s.(tasks := s'.tasks) && forall x :: x in s.tasks ==> x in s'.tasks && s'.tasks[x] == s.tasks[x]
    ensures forall x :: x in s'.tasks && x !in s.tasks ==>
              && var a := s'.tasks[x].agent;
              && s'.tasks[x] == TaskRow(x, a, TPending, None) && a in s.agents && a !in s.killed
              && s.agents[a].parent.Some? && s.agents[a].status in {Created, Running}
              && (forall y :: y in s.tasks && s.tasks[y].agent == a ==> s.tasks[y].status in {TStopped, TFailed})
              && (forall y :: y in s'.tasks && y !in s.tasks && s'.tasks[y].agent == a ==> y == x)
  {
    forall x, y | x in s'.tasks && x !in s.tasks && y in s.tasks && s.tasks[y].agent == s'.tasks[x].agent
      ensures s.tasks[y].status in {TStopped, TFailed}
    {
      assert !HasOpen(s.tasks, s'.tasks[x].agent);
    }
  }

  /** A claim to be finished comes too soon with a question open, with work left, or without a summary. */
  ghost predicate TooSoon(s: MState, summary: string) {
    || s.pending.Some?
    || (exists x :: x in s.tasks && s.tasks[x].status in {TPending, TRunning} && s.tasks[x].agent !in s.killed)
    || forall i :: 0 <= i < |summary| ==> Blank(summary[i])
  }

  /** Nobody has been asked yet whether to finish. */
  ghost predicate Unasked(answers: seq<Answer>) {
    forall i :: 0 <= i < |answers| ==> answers[i].purpose != ApprovalOf("finish")
  }

  /** The newest answer on finishing begins with one of the five denying words. */
  ghost predicate FinishDenied(answers: seq<Answer>) {
    exists i: nat :: LastOnFinish(answers, i) && SaysNo(answers[i].text)
  }

  /** It begins with no such word and no approving one. */
  ghost predicate FinishUnclear(answers: seq<Answer>) {
    exists i: nat :: LastOnFinish(answers, i) && !SaysYes(answers[i].text) && !SaysNo(answers[i].text)
  }

  /** A claim to be finished, by how it ends: it is refused as premature, or it waits for an answer, or it goes
      by the newest answer and then by the verifier. */
  ghost predicate EndsRightly(s: MState, required: bool, summary: string, reply: Option<string>, accepted: bool,
        e: Ending, s': MState)
  {
    var asks := !TooSoon(s, summary) && required && Unasked(s.answers);
    && (e == Raised(InvalidOutput) <==> TooSoon(s, summary))
    && (e == Cut <==> asks && reply == None)
    && (e == Done <==> !TooSoon(s, summary) && accepted && (required ==> FinishApproved(s'.answers)))
    && (e == Raised(PolicyRefusal) <==> !TooSoon(s, summary) && required && FinishDenied(s'.answers))
    && (e == Raised(AuthorizationRequired) <==> !TooSoon(s, summary) && required && FinishUnclear(s'.answers))
    && (e == Raised(VerificationFailure) <==>
          !TooSoon(s, summary) && !accepted && (required ==> FinishApproved(s'.answers)))
  }

  /** What a claim leaves behind: a question is asked only when there is no answer yet, the reply is kept as
      its answer, and only a claim that is done completes the mission. */
  ghost predicate LeavesRightly(s: MState, required: bool, summary: string, reply: Option<string>, newQuestion: nat,
        e: Ending, s': MState)
  {
    var asks := !TooSoon(s, summary) && required && Unasked(s.answers);
    && s'.answers == (if asks && reply.Some? then s.answers + [Answer(newQuestion, ApprovalOf("finish"), reply.value)]
                      else s.answers)
    && s'.pending == (if asks && reply.None? then Some(Question(newQuestion, ApprovalOf("finish"))) else s.pending)
    && s'.saved == (if !asks then s.saved else if reply.None? then MWaiting else MRunning)
    && s'.status == (if e == Done then MCompleted else if !asks then s.status
                     else if reply.None? then MWaiting else MRunning)
    && s'.tasks == s.tasks && s'.agents == s.agents && s'.killed == s.killed
  }

  /** The newest answer decides by its first word. */
  lemma NewestDecides(answers: seq<Answer>)
    ensures var known := Newest(answers, FINISH);
            && (known.None? <==> Unasked(answers))
            && (FinishApproved(answers) <==> known.Some? && Interpret(known.value.text) == Done)
            && (FinishDenied(answers) <==> known.Some? && Interpret(known.value.text) == Raised(PolicyRefusal))
            && (FinishUnclear(answers) <==> known.Some? && Interpret(known.value.text) == Raised(AuthorizationRequired))
            && (known.Some? ==> FinishApproved(answers) || FinishDenied(answers) || FinishUnclear(answers))
  {
    hide ParseApproval, SaysYes, SaysNo;
    if Newest(answers, FINISH).Some? {
      var i := LastOfNewest(answers);
      NewestIsLast(answers, i);
      RepliesDecide(answers[i].text);
      forall k: nat | LastOnFinish(answers, k) ensures k == i {
      }
    } else {
      forall i | 0 <= i < |answers| ensures answers[i].purpose != ApprovalOf("finish") {
        NoneMeansNone(answers, i);
      }
    }
  }

  lemma {:induction false} NoneMeansNone(answers: seq<Answer>, i: nat)
    requires Newest(answers, FINISH).None? && i < |answers|
    ensures answers[i].purpose != ApprovalOf("finish")
  {
    if i < |answers| - 1 {
      NoneMeansNone(answers[..|answers| - 1], i);
    }
  }

  lemma TooSoonSpelled(s: MState, summary: string)
    ensures TooSoon(s, summary) <==> s.pending.Some? || Unkilled(s.tasks, s.killed) != {} || Spaces(summary)
  {
    assert Spaces(summary) <==> forall i :: 0 <= i < |summary| ==> Blank(summary[i]);
    if x :| x in s.tasks && s.tasks[x].status in {TPending, TRunning} && s.tasks[x].agent !in s.killed {
      assert x in Unkilled(s.tasks, s.killed);
    }
    if x :| x in Unkilled(s.tasks, s.killed) {
      assert s.tasks[x].status in {TPending, TRunning};
    }
  }

  /** A claim ends, and leaves things, as it should. */
  lemma FinishFacts(s: MState, required: bool, summary: string, reply: Option<string>, accepted: bool,
        newQuestion: nat, e: Ending, s': MState)
    requires FinishStep(s, required, summary, reply, accepted, newQuestion, e, s')
    ensures EndsRightly(s, required, summary, reply, accepted, e, s')
    ensures LeavesRightly(s, required, summary, reply, newQuestion, e, s')
  {
    hide Interpret, FinishApproved, FinishDenied, FinishUnclear, Unasked, TooSoon, Spaces, Unkilled;
    NewestDecides(s.answers);
    NewestDecides(s'.answers);
    TooSoonSpelled(s, summary);
    if Asks(s, required, summary) && reply.Some? {
      var a := Answer(newQuestion, ApprovalOf("finish"), reply.value);
      assert (s.answers + [a])[|s.answers|] == a;
      assert Newest(s'.answers, FINISH) == Some(a);
    }
  }

  /** Where approval is required, no claim completes the mission unless the newest answer approves. */
  lemma NeverUnapproved(s: MState, required: bool, summary: string, reply: Option<string>, accepted: bool,
        newQuestion: nat, e: Ending, s': MState)
    requires FinishStep(s, required, summary, reply, accepted, newQuestion, e, s')
    ensures required && s.status != MCompleted && !FinishApproved(s'.answers) ==> s'.status != MCompleted
  {
    hide TooSoon, Unasked, FinishApproved, FinishDenied, FinishUnclear;
    FinishFacts(s, required, summary, reply, accepted, newQuestion, e, s');
  }

  /** Over every run: where approval is required, a mission whose newest answer on finishing does not begin
      with an approving word, or that has none, is not completed. */
  lemma UnapprovedIsUnfinished(states: seq<MState>, acts: seq<Act>, n: nat)
    requires MRun(states, acts, true) && n < |states|
    requires forall i: nat :: LastOnFinish(states[n].answers, i) ==>
               !Says(states[n].answers[i].text, "approve") && !Says(states[n].answers[i].text, "approved")
               && !Says(states[n].answers[i].text, "yes") && !Says(states[n].answers[i].text, "allow")
    ensures states[n].status != MCompleted && states[n].saved != MCompleted
  {
    hide MRun, Says;
    if states[n].status == MCompleted || states[n].saved == MCompleted {
      var i := CompletedMeansEarned(states, acts, true, n);
    }
  }
}
