/** Accepting and consuming human answers by compare-and-swap on the stored mission (app/store.py).
    A call reads the row and swaps it in two separate steps; anything may happen in between. */
module Answers {
  import opened Base
  import opened Missions

  type Pid = nat
  type Time = int

  datatype Record = Record(question: nat, purpose: Purpose, text: string, consumedAt: Option<Time>)

  /** The part of the stored mission the two calls look at; `stamp` stands for the rest of the payload. */
  datatype Row = Row(status: MissionStatus, pending: Option<Question>, answers: seq<Record>, stamp: Time)

  datatype Code = NotFound | Duplicate | TerminalMissionCode | NoQuestion | WrongStatus | Mismatch | NoAnswer | Conflict

  datatype Outcome = Accepted(record: Record) | Consumed(record: Record, changed: bool) | Refused(code: Code)

  datatype Call = AcceptCall(question: nat, text: string) | ConsumeCall(question: nat)

  function Position(answers: seq<Record>, question: nat): (i: nat)
    ensures i <= |answers|
    ensures i < |answers| ==> answers[i].question == question
    ensures forall k :: 0 <= k < i ==> answers[k].question != question
  {
    if answers == [] || answers[0].question == question then 0
    else
      var i := Position(answers[1..], question) + 1;
      assert forall k :: 0 < k < i ==> answers[k] == answers[1..][k - 1];
      i
  }

  predicate Answered(row: Row, question: nat) {
    Position(row.answers, question) < |row.answers|
  }

  /** Why an answer to `question` cannot be accepted on this row, in the order the code asks. */
  function AcceptRefusal(row: Row, question: nat): Option<Code> {
    if Answered(row, question) then Some(Duplicate)
    else if TerminalMission(row.status) then Some(TerminalMissionCode)
    else if row.pending.None? then Some(NoQuestion)
    else if row.status != MWaiting && row.status != MPaused then Some(WrongStatus)
    else if row.pending.value.id != question then Some(Mismatch)
    else None
  }

  function NewRecord(row: Row, text: string): Record
    requires row.pending.Some?
  {
    Record(row.pending.value.id, row.pending.value.purpose, text, None)
  }

  function WithAnswer(row: Row, text: string, at: Time): Row
    requires row.pending.Some?
  {
    row.(answers := row.answers + [NewRecord(row, text)], pending := None, stamp := at)
  }

  function WithConsumed(row: Row, question: nat, at: Time): Row
    requires Answered(row, question)
  {
    var i := Position(row.answers, question);
    row.(answers := row.answers[i := row.answers[i].(consumedAt := Some(at))], stamp := at)
  }

  // ------------------------------------------------------------ what holds of the row

  ghost predicate UniqueIds(answers: seq<Record>) {
    forall i, k :: 0 <= i < k < |answers| ==> answers[i].question != answers[k].question
  }

  /** Question ids are answered at most once, the open one not at all; only asked ones occur, and with the
      purpose they were asked for. */
  ghost predicate RowInv(row: Row, asked: map<nat, Purpose>) {
    && UniqueIds(row.answers)
    && (row.pending.Some? ==>
          var q := row.pending.value; q.id in asked && asked[q.id] == q.purpose && !Answered(row, q.id))
    && forall i :: 0 <= i < |row.answers| ==>
         row.answers[i].question in asked && asked[row.answers[i].question] == row.answers[i].purpose
  }

  /** Answers are never dropped or rewritten; one that is not yet consumed may become so. */
  ghost predicate Grows(before: seq<Record>, after: seq<Record>) {
    && |before| <= |after|
    && forall i :: 0 <= i < |before| ==>
         after[i].(consumedAt := None) == before[i].(consumedAt := None)
         && (before[i].consumedAt.Some? ==> after[i] == before[i])
  }

  lemma GrowsKeepsAnswered(before: Row, after: Row, question: nat)
    requires Grows(before.answers, after.answers) && Answered(before, question)
    ensures Answered(after, question)
    ensures Position(after.answers, question) == Position(before.answers, question)
  {
    var i := Position(before.answers, question);
    assert after.answers[i].(consumedAt := None) == before.answers[i].(consumedAt := None);
    assert after.answers[i].question == question;
    forall k | 0 <= k < i ensures after.answers[k].question != question {
      assert after.answers[k].(consumedAt := None) == before.answers[k].(consumedAt := None);
    }
  }

  lemma AcceptKeepsRow(row: Row, asked: map<nat, Purpose>, question: nat, text: string, at: Time)
    requires RowInv(row, asked) && AcceptRefusal(row, question) == None
    ensures RowInv(WithAnswer(row, text, at), asked) && Grows(row.answers, WithAnswer(row, text, at).answers)
    ensures Stored(WithAnswer(row, text, at), NewRecord(row, text)) && question == row.pending.value.id
    ensures NewRecord(row, text) in WithAnswer(row, text, at).answers
  {
    var after := WithAnswer(row, text, at);
    assert after.answers[|row.answers|] == NewRecord(row, text);
    forall i | 0 <= i < |row.answers| ensures row.answers[i].question != question {
      if i < Position(row.answers, question) {}
    }
    assert !(Position(after.answers, question) > |row.answers|);
  }

  lemma ConsumeKeepsRow(row: Row, asked: map<nat, Purpose>, question: nat, at: Time)
    requires RowInv(row, asked) && Answered(row, question)
    requires row.answers[Position(row.answers, question)].consumedAt == None
    ensures RowInv(WithConsumed(row, question, at), asked)
    ensures Grows(row.answers, WithConsumed(row, question, at).answers)
    ensures IsConsumed(WithConsumed(row, question, at), question)
    ensures Position(WithConsumed(row, question, at).answers, question) == Position(row.answers, question)
  {
    var after := WithConsumed(row, question, at);
    GrowsKeepsAnswered(row, after, question);
    if row.pending.Some? {
      var open := row.pending.value.id;
      forall k | 0 <= k < |after.answers| ensures after.answers[k].question != open {
        assert after.answers[k].question == row.answers[k].question;
      }
    }
  }

  /** The record stands in the row, consumed meanwhile or not. */
  predicate Stored(row: Row, record: Record) {
    && Answered(row, record.question)
    && row.answers[Position(row.answers, record.question)].(consumedAt := None) == record.(consumedAt := None)
  }

  /** The answer to `question` has been handed to the controller. */
  predicate IsConsumed(row: Row, question: nat) {
    Answered(row, question) && row.answers[Position(row.answers, question)].consumedAt.Some?
  }

  // ------------------------------------------------------------ many calls at once

  datatype Phase = Ready | Read(seen: Row) | Finished(outcome: Outcome)

  /** A call in progress, with the attempts it has left. */
  datatype Proc = Proc(call: Call, left: nat, phase: Phase)

  const ATTEMPTS: nat := 3

  datatype Shared = Shared(row: Option<Row>, asked: map<nat, Purpose>, procs: map<Pid, Proc>)

  datatype Move =
    | Start(p: Pid, call: Call)
    | ReadRow(p: Pid)
    | Swap(p: Pid, at: Time)
    | Ask(question: Question, at: Time)
    | SetStatus(to: MissionStatus, at: Time)

  /** What reading the row tells a call. */
  function Look(call: Call, row: Option<Row>): Phase {
    match row
    case None => Finished(Refused(NotFound))
    case Some(r) =>
      match call
      case AcceptCall(question, _) =>
        var refusal := AcceptRefusal(r, question);
        if refusal.Some? then Finished(Refused(refusal.value)) else Read(r)
      case ConsumeCall(question) =>
        var i := Position(r.answers, question);
        if i == |r.answers| then Finished(Refused(NoAnswer))
        else if r.answers[i].consumedAt.Some? then Finished(Consumed(r.answers[i], false))
        else Read(r)
  }

  /** The call may go on to swap what it has seen. */
  predicate Fit(call: Call, seen: Row) {
    Look(call, Some(seen)) == Read(seen)
  }

  function Update(call: Call, seen: Row, at: Time): Row
    requires Fit(call, seen)
  {
    match call
    case AcceptCall(_, text) => WithAnswer(seen, text, at)
    case ConsumeCall(question) => WithConsumed(seen, question, at)
  }

  function Success(call: Call, seen: Row, at: Time): Outcome
    requires Fit(call, seen)
  {
    match call
    case AcceptCall(_, text) => Accepted(NewRecord(seen, text))
    case ConsumeCall(question) =>
      Consumed(seen.answers[Position(seen.answers, question)].(consumedAt := Some(at)), true)
  }

  /** After a swap that found another row: one attempt less. */
  function Retry(proc: Proc): Proc
    requires proc.left > 0
  {
    if proc.left == 1 then Proc(proc.call, 0, Finished(Refused(Conflict)))
    else Proc(proc.call, proc.left - 1, Ready)
  }

  /** The move can be made. */
  predicate Enabled(s: Shared, m: Move) {
    match m
    case Start(p, _) => p !in s.procs
    case ReadRow(p) => p in s.procs && s.procs[p].phase.Ready? && s.procs[p].left > 0
    case Swap(p, _) => p in s.procs && s.procs[p].phase.Read? && s.procs[p].left > 0
    case Ask(q, _) => s.row.Some? && s.row.value.pending.None? && q.id !in s.asked
    case SetStatus(_, _) => s.row.Some?
  }

  function Next(s: Shared, m: Move): Shared
    requires Enabled(s, m)
  {
    match m
    case Start(p, call) => s.(procs := s.procs[p := Proc(call, ATTEMPTS, Ready)])
    case ReadRow(p) => s.(procs := s.procs[p := s.procs[p].(phase := Look(s.procs[p].call, s.row))])
    case Swap(p, at) =>
      var proc := s.procs[p];
      if s.row == Some(proc.phase.seen) && Fit(proc.call, proc.phase.seen) then
        s.(row := Some(Update(proc.call, proc.phase.seen, at)),
           procs := s.procs[p := proc.(phase := Finished(Success(proc.call, proc.phase.seen, at)))])
      else s.(procs := s.procs[p := Retry(proc)])
    case Ask(q, at) =>
      s.(row := Some(s.row.value.(pending := Some(q), status := MWaiting, stamp := at)),
         asked := s.asked[q.id := q.purpose])
    case SetStatus(to, at) => s.(row := Some(s.row.value.(status := to, stamp := at)))
  }

  predicate Step(s: Shared, m: Move, s': Shared) {
    Enabled(s, m) && s' == Next(s, m)
  }

  ghost predicate ProcInv(s: Shared, p: Pid)
    requires p in s.procs
  {
    var proc := s.procs[p];
    match proc.phase
    case Ready => proc.left > 0
    case Read(seen) => proc.left > 0 && Fit(proc.call, seen)
    case Finished(Accepted(record)) =>
      && proc.call == AcceptCall(record.question, record.text) && record.consumedAt == None
      && s.row.Some? && Stored(s.row.value, record)
      && record.question in s.asked && record.purpose == s.asked[record.question]
    case Finished(Consumed(record, changed)) =>
      && proc.call == ConsumeCall(record.question) && s.row.Some? && IsConsumed(s.row.value, record.question)
      && s.row.value.answers[Position(s.row.value.answers, record.question)] == record
    case Finished(Refused(_)) => true
  }

  /** `p` is the call whose swap answered `q`. */
  predicate AcceptedBy(s: Shared, p: Pid, q: nat) {
    p in s.procs && s.procs[p].phase.Finished? && s.procs[p].phase.outcome.Accepted?
    && s.procs[p].phase.outcome.record.question == q
  }

  /** `p` is the call whose swap marked `q` consumed. */
  predicate ConsumedBy(s: Shared, p: Pid, q: nat) {
    p in s.procs && s.procs[p].phase.Finished? && s.procs[p].phase.outcome.Consumed?
    && s.procs[p].phase.outcome.changed && s.procs[p].phase.outcome.record.question == q
  }

  ghost predicate OneWinner(s: Shared) {
    && (forall p, p', q :: AcceptedBy(s, p, q) && AcceptedBy(s, p', q) ==> p == p')
    && (forall p, p', q :: ConsumedBy(s, p, q) && ConsumedBy(s, p', q) ==> p == p')
  }

  ghost predicate SharedInv(s: Shared) {
    && (s.row.Some? ==> RowInv(s.row.value, s.asked))
    && (forall p :: p in s.procs ==> ProcInv(s, p))
    && OneWinner(s)
  }

  /** The stored answers only grow. */
  ghost predicate RowGrows(s: Shared, s': Shared) {
    s.row.Some? ==> s'.row.Some? && Grows(s.row.value.answers, s'.row.value.answers)
  }

  /** A winning swap keeps the row's invariant, and its question was not won before. */
  lemma SwapKeepsRow(call: Call, row: Row, asked: map<nat, Purpose>, at: Time)
    requires RowInv(row, asked) && Fit(call, row)
    ensures RowInv(Update(call, row, at), asked) && Grows(row.answers, Update(call, row, at).answers)
    ensures match Success(call, row, at)
            case Accepted(record) =>
              && call == AcceptCall(record.question, record.text) && record.consumedAt == None
              && !Answered(row, record.question) && Stored(Update(call, row, at), record)
              && record.question in asked && record.purpose == asked[record.question]
            case Consumed(record, changed) =>
              && changed && call == ConsumeCall(record.question) && Answered(row, record.question)
              && !IsConsumed(row, record.question) && IsConsumed(Update(call, row, at), record.question)
              && Update(call, row, at).answers[Position(row.answers, record.question)] == record
              && Position(Update(call, row, at).answers, record.question) == Position(row.answers, record.question)
            case Refused(_) => false
  {
    match call {
      case AcceptCall(question, text) => AcceptKeepsRow(row, asked, question, text, at);
      case ConsumeCall(question) => ConsumeKeepsRow(row, asked, question, at);
    }
  }

  lemma GrowsKeepsConsumed(before: Row, after: Row, question: nat)
    requires Grows(before.answers, after.answers) && IsConsumed(before, question)
    ensures IsConsumed(after, question)
    ensures after.answers[Position(after.answers, question)] == before.answers[Position(before.answers, question)]
  {
    GrowsKeepsAnswered(before, after, question);
  }

  lemma GrowsKeepsStored(before: Row, after: Row, record: Record)
    requires Grows(before.answers, after.answers) && Stored(before, record)
    ensures Stored(after, record)
  {
    GrowsKeepsAnswered(before, after, record.question);
  }

  /** Questions that were asked stay known, with their purpose. */
  ghost predicate AskedGrows(s: Shared, s': Shared) {
    forall q :: q in s.asked ==> q in s'.asked && s'.asked[q] == s.asked[q]
  }

  /** A finished call's claim survives any growth of the answers. */
  lemma ProcInvSurvives(s: Shared, s': Shared, p: Pid)
    requires p in s.procs && p in s'.procs && s'.procs[p] == s.procs[p] && ProcInv(s, p)
    requires RowGrows(s, s') && AskedGrows(s, s')
    ensures ProcInv(s', p)
  {
    match s.procs[p].phase {
      case Finished(Accepted(record)) => GrowsKeepsStored(s.row.value, s'.row.value, record);
      case Finished(Consumed(record, _)) => GrowsKeepsConsumed(s.row.value, s'.row.value, record.question);
      case _ =>
    }
  }

  lemma AnsweredWasAsked(row: Row, asked: map<nat, Purpose>, question: nat)
    requires RowInv(row, asked)
    ensures Answered(row, question) ==> question in asked
  {
    var i := Position(row.answers, question);
    assert i < |row.answers| ==> row.answers[i].question in asked;
  }

  lemma StepGrows(s: Shared, m: Move, s': Shared)
    requires SharedInv(s) && Step(s, m, s')
    ensures RowGrows(s, s') && AskedGrows(s, s') && (s'.row.Some? ==> RowInv(s'.row.value, s'.asked))
  {
    if m.Swap? && s'.row != s.row {
      var proc := s.procs[m.p];
      SwapKeepsRow(proc.call, proc.phase.seen, s.asked, m.at);
    }
    if m.Ask? {
      var row := s.row.value;
      AnsweredWasAsked(row, s.asked, m.question.id);
    }
  }

  /** The call that moved is in order too. */
  lemma MoverInOrder(s: Shared, m: Move, s': Shared, p: Pid)
    requires SharedInv(s) && Step(s, m, s')
    requires p in s'.procs && (p !in s.procs || s'.procs[p] != s.procs[p])
    ensures ProcInv(s', p)
  {
    match m {
      case ReadRow(_) =>
        assert ProcInv(s, p);
        assert s.row.Some? ==> s.procs[p].phase.Ready?;
      case Swap(_, at) =>
        assert ProcInv(s, p);
        var proc := s.procs[p];
        if s.row == Some(proc.phase.seen) {
          SwapKeepsRow(proc.call, proc.phase.seen, s.asked, at);
        }
      case _ =>
    }
  }

  /** Nobody wins a question a second time. */
  lemma StillOneWinner(s: Shared, m: Move, s': Shared)
    requires SharedInv(s) && Step(s, m, s')
    ensures OneWinner(s')
  {
    if m.Swap? && s'.row != s.row {
      SwapWinsOnce(s, m, s');
    } else {
      forall p, q ensures AcceptedBy(s', p, q) ==> AcceptedBy(s, p, q)
                  ensures ConsumedBy(s', p, q) ==> ConsumedBy(s, p, q)
      {
        if p in s.procs { assert ProcInv(s, p); }
      }
    }
  }

  lemma SwapWinsOnce(s: Shared, m: Move, s': Shared)
    requires SharedInv(s) && Step(s, m, s') && m.Swap? && s'.row != s.row
    ensures OneWinner(s')
  {
    var proc := s.procs[m.p];
    SwapKeepsRow(proc.call, proc.phase.seen, s.asked, m.at);
    forall p, q | p != m.p
      ensures AcceptedBy(s', p, q) ==> AcceptedBy(s, p, q) && !AcceptedBy(s', m.p, q)
      ensures ConsumedBy(s', p, q) ==> ConsumedBy(s, p, q) && !ConsumedBy(s', m.p, q)
    {
      if p in s.procs { assert ProcInv(s, p); }
    }
  }

  lemma StepKeepsShared(s: Shared, m: Move, s': Shared)
    requires SharedInv(s) && Step(s, m, s')
    ensures SharedInv(s') && RowGrows(s, s')
  {
    StepGrows(s, m, s');
    StillOneWinner(s, m, s');
    forall p | p in s'.procs ensures ProcInv(s', p) {
      if p in s.procs && s'.procs[p] == s.procs[p] {
        ProcInvSurvives(s, s', p);
      } else {
        MoverInOrder(s, m, s', p);
      }
    }
  }

  /** A history of moves from a mission without answers or calls. */
  ghost predicate History(states: seq<Shared>, moves: seq<Move>) {
    && |states| == |moves| + 1 && states[0].procs == map[] && states[0].asked == map[]
    && (states[0].row.Some? ==> states[0].row.value.answers == [] && states[0].row.value.pending == None)
    && forall i :: 0 <= i < |moves| ==> Step(states[i], moves[i], states[i + 1])
  }

  lemma {:induction false} HistoryKeepsInv(states: seq<Shared>, moves: seq<Move>, n: nat)
    requires History(states, moves) && n < |states|
    ensures SharedInv(states[n])
  {
    if n > 0 {
      HistoryKeepsInv(states, moves, n - 1);
      StepKeepsShared(states[n - 1], moves[n - 1], states[n - 1 + 1]);
    }
  }

  lemma GrowsTransitive(a: seq<Record>, b: seq<Record>, c: seq<Record>)
    requires Grows(a, b) && Grows(b, c)
    ensures Grows(a, c)
  {
    forall i | 0 <= i < |a|
      ensures c[i].(consumedAt := None) == a[i].(consumedAt := None) && (a[i].consumedAt.Some? ==> c[i] == a[i])
    {
      assert b[i].(consumedAt := None) == a[i].(consumedAt := None);
    }
  }

  /** However calls interleave: answered ids are unique, the open question is not among them, and answers
      are never lost or rewritten. */
  lemma {:induction false} AnswersOnlyGrow(states: seq<Shared>, moves: seq<Move>, i: nat, n: nat)
    requires History(states, moves) && i <= n < |states|
    ensures RowGrows(states[i], states[n])
    ensures states[n].row.Some? ==> RowInv(states[n].row.value, states[n].asked)
    decreases n - i
  {
    HistoryKeepsInv(states, moves, n);
    if i < n {
      AnswersOnlyGrow(states, moves, i, n - 1);
      HistoryKeepsInv(states, moves, n - 1);
      StepKeepsShared(states[n - 1], moves[n - 1], states[n - 1 + 1]);
      if states[i].row.Some? {
        GrowsTransitive(states[i].row.value.answers, states[n - 1].row.value.answers, states[n].row.value.answers);
      }
    }
  }

  /** Each question is accepted by at most one call and marked consumed by at most one; a call that
      reports either finds the answer in the store. */
  lemma EachQuestionWonOnce(states: seq<Shared>, moves: seq<Move>, n: nat, p: Pid, p': Pid, q: nat)
    requires History(states, moves) && n < |states|
    ensures AcceptedBy(states[n], p, q) && AcceptedBy(states[n], p', q) ==> p == p'
    ensures ConsumedBy(states[n], p, q) && ConsumedBy(states[n], p', q) ==> p == p'
    ensures AcceptedBy(states[n], p, q) ==>
              states[n].row.Some? && Stored(states[n].row.value, states[n].procs[p].phase.outcome.record)
    ensures ConsumedBy(states[n], p, q) ==> states[n].row.Some? && IsConsumed(states[n].row.value, q)
  {
    HistoryKeepsInv(states, moves, n);
    assert p in states[n].procs ==> ProcInv(states[n], p);
  }

  /** A move has asked question `q` for this purpose. */
  ghost predicate WasAsked(moves: seq<Move>, n: nat, q: nat, purpose: Purpose)
    requires n <= |moves|
  {
    exists k :: 0 <= k < n && moves[k].Ask? && moves[k].question == Question(q, purpose)
  }

  lemma {:induction false} AskedWasAsked(states: seq<Shared>, moves: seq<Move>, n: nat, q: nat)
    requires History(states, moves) && n < |states| && q in states[n].asked
    ensures WasAsked(moves, n, q, states[n].asked[q])
  {
    var s, m, s' := states[n - 1], moves[n - 1], states[n - 1 + 1];
    assert Step(s, m, s');
    if m.Ask? && m.question.id == q {
      assert moves[n - 1].question == Question(q, states[n].asked[q]);
    } else {
      AskedWasAsked(states, moves, n - 1, q);
    }
  }

  /** Every stored answer carries the id and the purpose of a question that was asked. */
  lemma AnswersMatchQuestions(states: seq<Shared>, moves: seq<Move>, n: nat, i: nat)
    requires History(states, moves) && n < |states| && states[n].row.Some? && i < |states[n].row.value.answers|
    ensures var record := states[n].row.value.answers[i]; WasAsked(moves, n, record.question, record.purpose)
  {
    HistoryKeepsInv(states, moves, n);
    AskedWasAsked(states, moves, n, states[n].row.value.answers[i].question);
  }

  /** What a call has accepted is its own text, for a question that was asked, and stays in the store. */
  lemma AcceptedIsKept(states: seq<Shared>, moves: seq<Move>, n: nat, p: Pid, record: Record)
    requires History(states, moves) && n < |states| && p in states[n].procs
    requires states[n].procs[p].phase == Finished(Accepted(record))
    ensures states[n].procs[p].call == AcceptCall(record.question, record.text)
    ensures WasAsked(moves, n, record.question, record.purpose)
    ensures states[n].row.Some?
            && exists i :: 0 <= i < |states[n].row.value.answers|
                           && states[n].row.value.answers[i].(consumedAt := None) == record
  {
    HistoryKeepsInv(states, moves, n);
    assert ProcInv(states[n], p);
    AskedWasAsked(states, moves, n, record.question);
  }

  /** A question just asked can be answered at once, by its own id only, and nothing else of the answers changed. */
  lemma AskedCanBeAnswered(s: Shared, m: Move, s': Shared, question: nat)
    requires SharedInv(s) && Step(s, m, s') && m.Ask?
    ensures s'.row.Some? && s'.row.value.status == MWaiting && s'.row.value.pending == Some(m.question)
    ensures s'.row.value.answers == s.row.value.answers && s'.procs == s.procs
    ensures AcceptRefusal(s'.row.value, question) == None <==> question == m.question.id
  {
    AnsweredWasAsked(s.row.value, s.asked, m.question.id);
  }

  /** How many swaps call `p` made in the first `n` moves. */
  ghost function SwapsBy(moves: seq<Move>, n: nat, p: Pid): nat
    requires n <= |moves|
  {
    if n == 0 then 0
    else SwapsBy(moves, n - 1, p) + if moves[n - 1].Swap? && moves[n - 1].p == p then 1 else 0
  }

  /** No call swaps more than three times, and it gives up with a conflict only after its third swap. */
  lemma {:induction false} SwapsUseAttempts(states: seq<Shared>, moves: seq<Move>, n: nat, p: Pid)
    requires History(states, moves) && n < |states|
    ensures SwapsBy(moves, n, p) <= 3
    ensures p !in states[n].procs ==> SwapsBy(moves, n, p) == 0
    ensures p in states[n].procs && !states[n].procs[p].phase.Finished? ==>
              states[n].procs[p].left == 3 - SwapsBy(moves, n, p) && states[n].procs[p].left > 0
    ensures p in states[n].procs && states[n].procs[p].phase == Finished(Refused(Conflict)) ==>
              SwapsBy(moves, n, p) == 3
  {
    hide RowInv, Grows, Position, WithAnswer, WithConsumed, OneWinner;
    if n > 0 {
      var s, m, s' := states[n - 1], moves[n - 1], states[n - 1 + 1];
      SwapsUseAttempts(states, moves, n - 1, p);
      HistoryKeepsInv(states, moves, n - 1);
      assert Step(s, m, s');
      if p in s.procs { assert ProcInv(s, p); }
    }
  }

  // ------------------------------------------------------------ how a call may end

  /** The question has an answer among these. */
  predicate Contains(answers: seq<Record>, question: nat) {
    exists i :: 0 <= i < |answers| && answers[i].question == question
  }

  /** How accepting may end, given the row last read and the row now: accepted only for the open question of a
      waiting or paused mission, and then stored with that question's purpose. */
  ghost predicate AcceptEnds(question: nat, text: string, at: Time, seen: Option<Row>, now: Option<Row>, o: Outcome) {
    match o
    case Accepted(record) =>
      && seen.Some? && seen.value.status in {MWaiting, MPaused} && !Contains(seen.value.answers, question)
      && seen.value.pending == Some(Question(question, record.purpose))
      && record == Record(question, record.purpose, text, None)
      && now == Some(seen.value.(answers := seen.value.answers + [record], pending := None, stamp := at))
    case Consumed(_, _) => false
    case Refused(code) => AcceptRefused(question, seen, now, code)
  }

  /** What a refusal to accept says about the row read; after a conflict it is no longer the row there is. */
  ghost predicate AcceptRefused(question: nat, seen: Option<Row>, now: Option<Row>, code: Code) {
    if code == Conflict then now != seen
    else if seen.None? then code == NotFound && now == seen
    else
      var row := seen.value;
      && now == seen && code != NotFound && code != NoAnswer
      && (code == Duplicate <==> Contains(row.answers, question))
      && (code != Duplicate ==>
            (code == TerminalMissionCode <==> row.status in {MCompleted, MFailed, MStopped, MBlocked}))
      && (code in {NoQuestion, WrongStatus, Mismatch} ==> (code == NoQuestion <==> row.pending == None))
      && (code in {WrongStatus, Mismatch} ==> (code == WrongStatus <==> row.status !in {MWaiting, MPaused}))
      && (code == Mismatch ==> row.pending.Some? && row.pending.value.id != question)
  }

  /** How marking an answer consumed may end: it is stamped once, and only once reported as changed. */
  ghost predicate ConsumeEnds(question: nat, at: Time, seen: Option<Row>, now: Option<Row>, o: Outcome) {
    match o
    case Accepted(_) => false
    case Consumed(record, changed) =>
      && seen.Some?
      && exists i :: && 0 <= i < |seen.value.answers| && seen.value.answers[i].question == question
                     && (changed <==> seen.value.answers[i].consumedAt == None)
                     && record == (if changed then seen.value.answers[i].(consumedAt := Some(at))
                                   else seen.value.answers[i])
                     && now == Some(if changed then seen.value.(answers := seen.value.answers[i := record], stamp := at)
                                    else seen.value)
    case Refused(code) =>
      if code == Conflict then now != seen
      else if seen.None? then code == NotFound && now == seen
      else code == NoAnswer && now == seen && !Contains(seen.value.answers, question)
  }

  lemma AnsweredIsContained(row: Row, question: nat)
    ensures Answered(row, question) <==> Contains(row.answers, question)
  {
    var i := Position(row.answers, question);
    assert i < |row.answers| ==> row.answers[i].question == question;
  }

  /** What reading and swapping come to. */
  ghost predicate EndsAs(call: Call, o: Outcome, seen: Option<Row>, now: Option<Row>, at: Time) {
    match Look(call, seen)
    case Finished(outcome) => o == outcome && now == seen
    case Read(r) =>
      if now == Some(Update(call, r, at)) && o == Success(call, r, at) then true
      else o == Refused(Conflict) && now != seen
    case Ready => false
  }

  lemma AcceptEndsRightly(question: nat, text: string, o: Outcome, seen: Option<Row>, now: Option<Row>, at: Time)
    requires EndsAs(AcceptCall(question, text), o, seen, now, at)
    ensures AcceptEnds(question, text, at, seen, now, o)
  {
    if seen.Some? {
      AnsweredIsContained(seen.value, question);
    }
  }

  lemma ConsumeEndsRightly(question: nat, o: Outcome, seen: Option<Row>, now: Option<Row>, at: Time)
    requires EndsAs(ConsumeCall(question), o, seen, now, at)
    ensures ConsumeEnds(question, at, seen, now, o)
  {
    if seen.Some? {
      AnsweredIsContained(seen.value, question);
    }
  }

  // ------------------------------------------------------------ the retry loops themselves

  /** What happens before a call's read and before its swap, and the time it stamps. */
  datatype Gap = Gap(beforeRead: seq<Move>, beforeSwap: seq<Move>, at: Time)

  /** The move is a step of call `p`. */
  predicate By(m: Move, p: Pid) {
    (m.Start? || m.ReadRow? || m.Swap?) && m.p == p
  }

  /** The stored mission and the calls on it. */
  class MissionStore {
    var row: Option<Row>
    var asked: map<nat, Purpose>
    var calls: map<Pid, Proc>
    ghost var states: seq<Shared>
    ghost var moves: seq<Move>

    function World(): Shared
      reads this
    {
      Shared(row, asked, calls)
    }

    /** Everything so far is a history of moves that ends here. */
    ghost predicate Valid()
      reads this
    {
      |states| == |moves| + 1 && states[|moves|] == World() && History(states, moves)
    }

    /** No answer of `before` has been lost. */
    ghost predicate Kept(before: Option<Row>)
      reads this
    {
      before.Some? ==> row.Some? && Grows(before.value.answers, row.value.answers)
    }

    constructor (row: Option<Row>)
      requires row.Some? ==> row.value.answers == [] && row.value.pending == None
      ensures Valid() && this.row == row && calls == map[]
    {
      this.row, asked, calls := row, map[], map[];
      states, moves := [Shared(row, map[], map[])], [];
    }

    /** Adds the move just made to the history. */
    ghost method Log(m: Move)
      requires History(states, moves) && Step(states[|moves|], m, World())
      modifies this`states, this`moves
      ensures Valid() && states == old(states) + [World()] && moves == old(moves) + [m]
    {
      states, moves := states + [World()], moves + [m];
    }

    /** The history from its `n`-th state on has kept every answer. */
    lemma StillKept(was: seq<Shared>, n: nat)
      requires Valid() && n < |was| && was <= states
      ensures Kept(was[n].row)
    {
      AnswersOnlyGrow(states, moves, n, |moves|);
    }

    /** So on this store, too, every question is won at most once. */
    lemma WonOnce(p: Pid, p': Pid, q: nat)
      requires Valid()
      ensures AcceptedBy(World(), p, q) && AcceptedBy(World(), p', q) ==> p == p'
      ensures ConsumedBy(World(), p, q) && ConsumedBy(World(), p', q) ==> p == p'
    {
      EachQuestionWonOnce(states, moves, |moves|, p, p', q);
    }

    /** Moves of anyone but call `me`, as far as they can be made. */
    method Meanwhile(others: seq<Move>, me: Pid)
      requires Valid() && me in calls
      modifies this
      ensures Valid() && old(states) <= states && old(moves) <= moves
      ensures me in calls && calls[me] == old(calls[me])
    {
      for i := 0 to |others|
        invariant Valid() && old(states) <= states && old(moves) <= moves
        invariant me in calls && calls[me] == old(calls[me])
      {
        if !By(others[i], me) && Enabled(World(), others[i]) {
          var next := Next(World(), others[i]);
          row, asked, calls := next.row, next.asked, next.procs;
          Log(others[i]);
        }
      }
    }

    /** The conditional update: writes only over the payload that was read. */
    method CompareAndSwap(original: Row, mission: Row) returns (changed: bool)
      modifies this`row
      ensures changed <==> old(row) == Some(original)
      ensures row == if changed then Some(mission) else old(row)
    {
      changed := row == Some(original);
      if changed {
        row := Some(mission);
      }
    }

    /** How a call ended, given the row it last read. */
    ghost predicate Ended(call: Call, o: Outcome, seen: Option<Row>, at: Time)
      reads this
    {
      EndsAs(call, o, seen, row, at)
    }

    /** Call `p` is about to begin its attempt `i`, or has used them all. */
    ghost predicate AtAttempt(p: Pid, call: Call, i: nat)
      requires i <= ATTEMPTS
      reads this
    {
      && p in calls
      && calls[p] == if i < ATTEMPTS then Proc(call, ATTEMPTS - i, Ready)
                     else Proc(call, 0, Finished(Refused(Conflict)))
    }

    method Begin(p: Pid, call: Call)
      requires Valid() && p !in calls
      modifies this
      ensures Valid() && old(states) <= states && old(moves) <= moves
      ensures AtAttempt(p, call, 0) && row == old(row) && asked == old(asked)
    {
      calls := calls[p := Proc(call, ATTEMPTS, Ready)];
      Log(Start(p, call));
    }

    /** Reads the row; the call is then done, or goes on with what it saw. */
    method Fetch(p: Pid) returns (seen: Option<Row>)
      requires Valid() && p in calls && calls[p].phase.Ready? && calls[p].left > 0
      modifies this`calls, this`states, this`moves
      ensures Valid() && old(states) <= states && old(moves) <= moves
      ensures seen == row && p in calls && calls[p] == old(calls[p]).(phase := Look(old(calls[p]).call, row))
    {
      seen := row;
      calls := calls[p := calls[p].(phase := Look(calls[p].call, row))];
      Log(ReadRow(p));
    }

    /** The conditional update as a move: the call has won, or has one attempt less. */
    method Swapping(p: Pid, original: Row, mission: Row, at: Time) returns (changed: bool)
      requires Valid() && p in calls && calls[p].phase == Read(original) && calls[p].left > 0
      requires Fit(calls[p].call, original) && mission == Update(calls[p].call, original, at)
      modifies this`row, this`calls, this`states, this`moves
      ensures Valid() && old(states) <= states && old(moves) <= moves
      ensures changed <==> old(row) == Some(original)
      ensures row == if changed then Some(mission) else old(row)
      ensures var before := old(calls[p]);
              p in calls && calls[p] == if changed then before.(phase := Finished(Success(before.call, original, at)))
                                        else Retry(before)
    {
      changed := CompareAndSwap(original, mission);
      calls := calls[p := if changed then calls[p].(phase := Finished(Success(calls[p].call, original, at)))
                          else Retry(calls[p])];
      Log(Swap(p, at));
    }

    /** One attempt: read, check, swap.  None when the swap found another row. */
    method TryAccept(p: Pid, question: nat, text: string, gap: Gap)
      returns (o: Option<Outcome>, ghost seen: Option<Row>)
      requires Valid() && p in calls && calls[p].call == AcceptCall(question, text)
      requires calls[p].phase.Ready? && calls[p].left > 0
      modifies this
      ensures Valid() && old(states) <= states && old(moves) <= moves && p in calls
      ensures o.Some? ==> calls[p] == old(calls[p]).(phase := Finished(o.value))
      ensures o.None? ==> calls[p] == Retry(old(calls[p]))
      ensures Ended(AcceptCall(question, text), if o.Some? then o.value else Refused(Conflict), seen, gap.at)
    {
      hide History, Step, Grows, UniqueIds, RowInv, Position;
      Meanwhile(gap.beforeRead, p);
      var current := Fetch(p);
      seen := current;
      if current.None? {
        return Some(Refused(NotFound)), seen;
      }
      var original := current.value;
      var refusal := AcceptRefusal(original, question);
      if refusal.Some? {
        return Some(Refused(refusal.value)), seen;
      }
      var record := Record(question, original.pending.value.purpose, text, None);
      var mission := original.(answers := original.answers + [record], pending := None, stamp := gap.at);
      Meanwhile(gap.beforeSwap, p);
      var changed := Swapping(p, original, mission, gap.at);
      o := if changed then Some(Accepted(record)) else None;
    }

    /** Accepts a human's answer to the open question, as call `p`. */
    method AcceptAnswer(p: Pid, question: nat, text: string, gaps: seq<Gap>)
      returns (o: Outcome, ghost seen: Option<Row>, ghost at: Time)
      requires Valid() && p !in calls && |gaps| == 3
      modifies this
      ensures Valid() && old(states) <= states && old(moves) <= moves && Kept(old(row))
      ensures p in calls && calls[p].call == AcceptCall(question, text) && calls[p].phase == Finished(o)
      ensures Ended(AcceptCall(question, text), o, seen, at)
      ensures AcceptEnds(question, text, at, seen, row, o)
    {
      hide History, Step, Look, Position, AcceptEnds;
      o, seen, at := Refused(Conflict), None, 0;
      Begin(p, AcceptCall(question, text));
      StillKept(old(states), |old(moves)|);
      for i := 0 to |gaps|
        invariant Valid() && old(states) <= states && old(moves) <= moves && Kept(old(row))
        invariant AtAttempt(p, AcceptCall(question, text), i)
        invariant i > 0 ==> Ended(AcceptCall(question, text), Refused(Conflict), seen, at)
      {
        var ended;
        at := gaps[i].at;
        ended, seen := TryAccept(p, question, text, gaps[i]);
        StillKept(old(states), |old(moves)|);
        if ended.Some? {
          AcceptEndsRightly(question, text, ended.value, seen, row, at);
          return ended.value, seen, at;
        }
      }
      AcceptEndsRightly(question, text, o, seen, row, at);
      return o, seen, at;
    }

    /** One attempt: read, check, swap.  None when the swap found another row. */
    method TryConsume(p: Pid, question: nat, gap: Gap)
      returns (o: Option<Outcome>, ghost seen: Option<Row>)
      requires Valid() && p in calls && calls[p].call == ConsumeCall(question)
      requires calls[p].phase.Ready? && calls[p].left > 0
      modifies this
      ensures Valid() && old(states) <= states && old(moves) <= moves && p in calls
      ensures o.Some? ==> calls[p] == old(calls[p]).(phase := Finished(o.value))
      ensures o.None? ==> calls[p] == Retry(old(calls[p]))
      ensures Ended(ConsumeCall(question), if o.Some? then o.value else Refused(Conflict), seen, gap.at)
    {
      hide History, Step, Grows, UniqueIds, RowInv, Position;
      Meanwhile(gap.beforeRead, p);
      var current := Fetch(p);
      seen := current;
      if current.None? {
        return Some(Refused(NotFound)), seen;
      }
      var original := current.value;
      var k := Position(original.answers, question);
      if k == |original.answers| {
        return Some(Refused(NoAnswer)), seen;
      }
      if original.answers[k].consumedAt.Some? {
        return Some(Consumed(original.answers[k], false)), seen;
      }
      var record := original.answers[k].(consumedAt := Some(gap.at));
      var mission := original.(answers := original.answers[k := record], stamp := gap.at);
      Meanwhile(gap.beforeSwap, p);
      var changed := Swapping(p, original, mission, gap.at);
      o := if changed then Some(Consumed(record, true)) else None;
    }

    /** Marks an answer as handed to the controller, as call `p`; `changed` only for the call that did it. */
    method MarkAnswerConsumed(p: Pid, question: nat, gaps: seq<Gap>)
      returns (o: Outcome, ghost seen: Option<Row>, ghost at: Time)
      requires Valid() && p !in calls && |gaps| == 3
      modifies this
      ensures Valid() && old(states) <= states && old(moves) <= moves && Kept(old(row))
      ensures p in calls && calls[p].call == ConsumeCall(question) && calls[p].phase == Finished(o)
      ensures Ended(ConsumeCall(question), o, seen, at)
      ensures ConsumeEnds(question, at, seen, row, o)
    {
      hide History, Step, Look, Position, ConsumeEnds;
      o, seen, at := Refused(Conflict), None, 0;
      Begin(p, ConsumeCall(question));
      StillKept(old(states), |old(moves)|);
      for i := 0 to |gaps|
        invariant Valid() && old(states) <= states && old(moves) <= moves && Kept(old(row))
        invariant AtAttempt(p, ConsumeCall(question), i)
        invariant i > 0 ==> Ended(ConsumeCall(question), Refused(Conflict), seen, at)
      {
        var ended;
        at := gaps[i].at;
        ended, seen := TryConsume(p, question, gaps[i]);
        StillKept(old(states), |old(moves)|);
        if ended.Some? {
          ConsumeEndsRightly(question, ended.value, seen, row, at);
          return ended.value, seen, at;
        }
      }
      ConsumeEndsRightly(question, o, seen, row, at);
      return o, seen, at;
    }
  }
}
