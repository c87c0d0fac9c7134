/** The intake question machine: sessions, stored answers, retries and clones. */
module IntakeSessions {
  import opened Wrappers

  datatype TaskType = Build | Debug | Research | Review | Devops | Writing | Analysis

  datatype Field = TaskTypeField | TargetField | ExpectedField | ConstraintsField

  /** Texts are trimmed and not empty; absent means null. */
  datatype Profile = Profile(taskType: Option<TaskType>, target: Option<string>, expected: Option<string>, constraints: Option<string>)

  const MAX_QUESTIONS := 3

  /** Reads a task type from an answer; None when it is not one of the allowed types or their aliases. */
  type Classifier = string -> Option<TaskType>

  // Evaluation.

  /** The required fields that are still null. */
  function Missing(p: Profile): set<Field> {
    (if p.taskType.None? then {TaskTypeField} else {}) + (if p.target.None? then {TargetField} else {})
    + (if p.expected.None? then {ExpectedField} else {})
  }

  /** The next question: required fields in policy order, at most three questions. */
  function NextQuestion(p: Profile, count: nat): Option<Field> {
    if count >= MAX_QUESTIONS then None
    else if p.taskType.None? then Some(TaskTypeField)
    else if p.target.None? then Some(TargetField)
    else if p.expected.None? then Some(ExpectedField) else None
  }

  datatype Status = Active | Ready | Exhausted

  function Evaluate(p: Profile, count: nat): Status {
    if Missing(p) == {} then Ready else if count >= MAX_QUESTIONS then Exhausted else Active
  }

  // Tables.

  datatype Session = Session(task: string, profile: Profile, status: Status, questionCount: nat)

  datatype AnswerKey = AnswerKey(sessionId: string, field: Field)

  datatype Tables = Tables(sessions: map<string, Session>, answers: map<AnswerKey, string>)

  datatype Reply = Accepted(session: Session, replayed: bool) | NotFound | Conflict | Validation | Integrity

  /** Reading a session checks that its status is what evaluation says. */
  function ReadSession(t: Tables, id: string): Result<Session, Reply> {
    if id !in t.sessions then Err(NotFound)
    else
      var s := t.sessions[id];
      if s.questionCount > MAX_QUESTIONS || s.status != Evaluate(s.profile, s.questionCount) then Err(Integrity)
      else Ok(s)
  }

  function Fill(p: Profile, field: Field, value: string, classify: Classifier): Option<Profile> {
    match field
    case TaskTypeField => if classify(value).Some? then Some(p.(taskType := classify(value))) else None
    case TargetField => Some(p.(target := Some(value)))
    case ExpectedField => Some(p.(expected := Some(value)))
    case ConstraintsField => Some(p.(constraints := Some(value)))
  }

  // Operations, each one transaction: an error leaves the tables as they were.

  datatype Operation =
    | Start(id: string, task: string, profile: Profile)
    | Answer(id: string, field: Field, value: string)
    | Clone(id: string, successor: string)

  function AfterStart(t: Tables, id: string, task: string, profile: Profile): (Tables, Reply) {
    if id in t.sessions then (t, Conflict)
    else
      var s := Session(task, profile, Evaluate(profile, 0), 0);
      (t.(sessions := t.sessions[id := s]), Accepted(s, false))
  }

  /** An accepted answer: the session with the field filled and one more question counted. */
  function Answered(s: Session, field: Field, value: string, classify: Classifier): Result<Session, Reply> {
    if NextQuestion(s.profile, s.questionCount) != Some(field) then Err(Conflict)
    else
      var filled := Fill(s.profile, field, value, classify);
      if filled.None? then Err(Validation)
      else
        var n := s.questionCount + 1;
        Ok(Session(s.task, filled.value, Evaluate(filled.value, n), n))
  }

  function AfterAnswer(t: Tables, id: string, field: Field, value: string, classify: Classifier): (Tables, Reply) {
    if value == "" then (t, Validation)
    else
      var read := ReadSession(t, id);
      if read.Err? then (t, read.error)
      else
        var s, key := read.value, AnswerKey(id, field);
        if key in t.answers then (t, if t.answers[key] == value then Accepted(s, true) else Conflict)
        else if !s.status.Active? then (t, Conflict)
        else
          var next := Answered(s, field, value, classify);
          if next.Err? then (t, next.error)
          else (Tables(t.sessions[id := next.value], t.answers[key := value]), Accepted(next.value, false))
  }

  /** Copies of one session's answers under another identifier. */
  function Copied(answers: map<AnswerKey, string>, id: string, successor: string): map<AnswerKey, string> {
    map k | k in answers.Keys && k.sessionId == id :: AnswerKey(successor, k.field) := answers[k]
  }

  function AfterClone(t: Tables, id: string, successor: string): (Tables, Reply) {
    var read := ReadSession(t, id);
    if read.Err? then (t, read.error)
    else if successor in t.sessions then (t, Conflict)
    else (Tables(t.sessions[successor := read.value], t.answers + Copied(t.answers, id, successor)), Accepted(read.value, false))
  }

  function Apply(t: Tables, op: Operation, classify: Classifier): (Tables, Reply) {
    match op
    case Start(id, task, profile) => AfterStart(t, id, task, profile)
    case Answer(id, field, value) => AfterAnswer(t, id, field, value, classify)
    case Clone(id, successor) => AfterClone(t, id, successor)
  }

  function Run(ops: seq<Operation>, classify: Classifier): Tables {
    if ops == [] then Tables(map[], map[]) else Apply(Run(ops[..|ops| - 1], classify), ops[|ops| - 1], classify).0
  }

  // What every operation keeps.

  /** The fields that a session has stored answers for. */
  function AnsweredFields(answers: map<AnswerKey, string>, id: string): set<Field> {
    set k | k in answers.Keys && k.sessionId == id :: k.field
  }

  predicate SessionSound(s: Session, answered: set<Field>) {
    && s.status == Evaluate(s.profile, s.questionCount)
    && |Missing(s.profile)| + s.questionCount <= MAX_QUESTIONS
    && |answered| == s.questionCount && answered !! Missing(s.profile) && ConstraintsField !in answered
  }

  ghost predicate Inv(t: Tables) {
    && (forall id | id in t.sessions :: SessionSound(t.sessions[id], AnsweredFields(t.answers, id)))
    && (forall k | k in t.answers :: k.sessionId in t.sessions)
  }

  lemma FillRemoves(p: Profile, field: Field, value: string, classify: Classifier)
    requires field in Missing(p) && Fill(p, field, value, classify).Some?
    ensures Missing(Fill(p, field, value, classify).value) == Missing(p) - {field}
  {
  }

  /** Three answers at most: what is missing and what has been asked together never grow beyond the first evaluation. */
  lemma AnsweredSound(s: Session, answered: set<Field>, field: Field, value: string, classify: Classifier)
    requires SessionSound(s, answered) && Answered(s, field, value, classify).Ok? && field !in answered
    ensures var n := Answered(s, field, value, classify).value;
            && SessionSound(n, answered + {field})
            && |Missing(n.profile)| + n.questionCount == |Missing(s.profile)| + s.questionCount
  {
    hide Missing, Fill, NextQuestion, Evaluate;
    QuestionIsMissing(s.profile, s.questionCount);
    FillRemoves(s.profile, field, value, classify);
    var missing := Missing(s.profile);
    assert missing == missing - {field} + {field};
    assert |answered + {field}| == |answered| + 1;
  }

  lemma QuestionIsMissing(p: Profile, count: nat)
    ensures NextQuestion(p, count).Some? ==>
              count < MAX_QUESTIONS && NextQuestion(p, count).value in Missing(p) && !NextQuestion(p, count).value.ConstraintsField?
  {
  }

  lemma OtherFields(answers: map<AnswerKey, string>, key: AnswerKey, value: string, id: string)
    ensures AnsweredFields(answers[key := value], id)
            == AnsweredFields(answers, id) + if key.sessionId == id then {key.field} else {}
  {
  }

  lemma IsAnswered(answers: map<AnswerKey, string>, id: string, f: Field)
    ensures f in AnsweredFields(answers, id) <==> AnswerKey(id, f) in answers
  {
  }

  lemma CopiedFields(answers: map<AnswerKey, string>, id: string, successor: string, other: string)
    requires forall k | k in answers :: k.sessionId != successor
    ensures AnsweredFields(answers + Copied(answers, id, successor), other)
            == AnsweredFields(answers, if other == successor then id else other)
  {
  }

  lemma CopiedKey(answers: map<AnswerKey, string>, id: string, successor: string, key: AnswerKey)
    ensures key in Copied(answers, id, successor) <==> key.sessionId == successor && AnswerKey(id, key.field) in answers
  {
  }

  lemma StartKeeps(t: Tables, id: string, task: string, profile: Profile)
    requires Inv(t)
    ensures Inv(AfterStart(t, id, task, profile).0)
  {
  }

  lemma AnswerKeeps(t: Tables, id: string, field: Field, value: string, classify: Classifier)
    requires Inv(t)
    ensures Inv(AfterAnswer(t, id, field, value, classify).0)
  {
    var (u, reply) := AfterAnswer(t, id, field, value, classify);
    if u != t {
      var s, key := t.sessions[id], AnswerKey(id, field);
      IsAnswered(t.answers, id, field);
      AnsweredSound(s, AnsweredFields(t.answers, id), field, value, classify);
      hide SessionSound, AnsweredFields, Answered;
      forall other | other in u.sessions
        ensures SessionSound(u.sessions[other], AnsweredFields(u.answers, other))
      {
        OtherFields(t.answers, key, value, other);
        assert other != id ==> AnsweredFields(t.answers, other) + {} == AnsweredFields(t.answers, other);
      }
    }
  }

  lemma CloneKeeps(t: Tables, id: string, successor: string)
    requires Inv(t)
    ensures Inv(AfterClone(t, id, successor).0)
  {
    hide SessionSound, AnsweredFields, Copied, Evaluate, Missing;
    var u := AfterClone(t, id, successor).0;
    if u != t {
      forall other | other in u.sessions
        ensures SessionSound(u.sessions[other], AnsweredFields(u.answers, other))
      {
        CopiedFields(t.answers, id, successor, other);
      }
      forall k | k in u.answers
        ensures k.sessionId in u.sessions
      {
        CopiedKey(t.answers, id, successor, k);
      }
    }
  }

  /** Over every sequence of starts, answers, retries and clones, every session is sound. */
  lemma {:induction false} RunKeeps(ops: seq<Operation>, classify: Classifier)
    ensures Inv(Run(ops, classify))
  {
    if ops != [] {
      var n := |ops| - 1;
      RunKeeps(ops[..n], classify);
      var t := Run(ops[..n], classify);
      hide Inv, AfterStart, AfterAnswer, AfterClone;
      match ops[n]
      case Start(id, task, profile) => StartKeeps(t, id, task, profile);
      case Answer(id, field, value) => AnswerKeeps(t, id, field, value, classify);
      case Clone(id, successor) => CloneKeeps(t, id, successor);
    }
  }

  // Consequences.

  /** What is missing and what has been asked, together. */
  function Outlook(s: Session): nat { |Missing(s.profile)| + s.questionCount }

  /** No operation changes the outlook of a session; a clone starts with that of its source. */
  lemma OutlookIsConstant(t: Tables, op: Operation, classify: Classifier)
    requires Inv(t)
    ensures var u := Apply(t, op, classify).0;
            && (forall id | id in t.sessions :: id in u.sessions && Outlook(u.sessions[id]) == Outlook(t.sessions[id]))
            && (op.Clone? && op.successor in u.sessions && op.successor !in t.sessions ==>
                  Outlook(u.sessions[op.successor]) == Outlook(t.sessions[op.id]))
  {
    hide Missing, Answered, SessionSound, AnsweredFields, Copied, Inv, ReadSession;
    match op
    case Start(id, task, profile) =>
    case Answer(id, field, value) => OutlookOfAnswer(t, id, field, value, classify);
    case Clone(id, successor) => ReadIsStored(t, id);
  }

  lemma ReadIsStored(t: Tables, id: string)
    ensures ReadSession(t, id).Ok? ==> id in t.sessions && ReadSession(t, id).value == t.sessions[id]
  {
  }

  lemma OutlookOfAnswer(t: Tables, id: string, field: Field, value: string, classify: Classifier)
    requires Inv(t)
    ensures var u := AfterAnswer(t, id, field, value, classify).0;
            forall other | other in t.sessions :: other in u.sessions && Outlook(u.sessions[other]) == Outlook(t.sessions[other])
  {
    hide Missing, Answered, SessionSound, AnsweredFields, ReadSession;
    ReadIsStored(t, id);
    IsAnswered(t.answers, id, field);
    if id in t.sessions && AnswerKey(id, field) !in t.answers && Answered(t.sessions[id], field, value, classify).Ok? {
      AnsweredSound(t.sessions[id], AnsweredFields(t.answers, id), field, value, classify);
    }
  }

  /** A reachable session is never exhausted: it is ready, or it asks for a field that is missing, and has asked fewer
      than three questions. */
  lemma NeverExhausted(s: Session, answered: set<Field>)
    requires SessionSound(s, answered)
    ensures !s.status.Exhausted? && s.questionCount <= MAX_QUESTIONS
    ensures s.status.Active? ==>
              s.questionCount < MAX_QUESTIONS && NextQuestion(s.profile, s.questionCount).Some?
              && NextQuestion(s.profile, s.questionCount).value in Missing(s.profile)
    ensures s.status.Ready? <==> Missing(s.profile) == {}
  {
    assert Missing(s.profile) != {} ==> |Missing(s.profile)| > 0;
  }

  /** An active session accepts any non-empty answer to the question it asks, and then answering again is a replay. */
  lemma ActiveAnswers(t: Tables, id: string, value: string, classify: Classifier)
    requires Inv(t) && id in t.sessions && t.sessions[id].status.Active? && value != ""
    ensures var s := t.sessions[id];
            var q := NextQuestion(s.profile, s.questionCount);
            && q.Some?
            && (!(q.value.TaskTypeField? && classify(value).None?) ==>
                  var (u, reply) := AfterAnswer(t, id, q.value, value, classify);
                  && reply.Accepted? && !reply.replayed && reply.session.questionCount == s.questionCount + 1
                  && id in u.sessions
                  && AfterAnswer(u, id, q.value, value, classify) == (u, Accepted(u.sessions[id], true)))
  {
    hide Missing, AnsweredFields, NextQuestion, Evaluate, Fill;
    var s := t.sessions[id];
    var fields := AnsweredFields(t.answers, id);
    NeverExhausted(s, fields);
    var q := NextQuestion(s.profile, s.questionCount).value;
    IsAnswered(t.answers, id, q);
    FillSucceeds(s.profile, q, value, classify);
    if !(q.TaskTypeField? && classify(value).None?) {
      AnsweredSound(s, fields, q, value, classify);
    }
  }

  lemma FillSucceeds(p: Profile, field: Field, value: string, classify: Classifier)
    ensures Fill(p, field, value, classify).None? <==> field.TaskTypeField? && classify(value).None?
  {
  }

  // The profile is what was answered.

  /** The field of the profile is what the answer says. */
  predicate Holds(p: Profile, field: Field, value: string, classify: Classifier) {
    match field
    case TaskTypeField => p.taskType.Some? && p.taskType == classify(value)
    case TargetField => p.target == Some(value)
    case ExpectedField => p.expected == Some(value)
    case ConstraintsField => p.constraints == Some(value)
  }

  ghost predicate AnswersHold(t: Tables, classify: Classifier) {
    forall k | k in t.answers ::
      k.sessionId in t.sessions && Holds(t.sessions[k.sessionId].profile, k.field, t.answers[k], classify)
  }

  lemma FillHolds(p: Profile, field: Field, value: string, classify: Classifier)
    requires Fill(p, field, value, classify).Some?
    ensures var q := Fill(p, field, value, classify).value;
            && Holds(q, field, value, classify)
            && (forall f, v | f != field && Holds(p, f, v, classify) :: Holds(q, f, v, classify))
  {
  }

  lemma AnswerKeepsAnswers(t: Tables, id: string, field: Field, value: string, classify: Classifier)
    requires AnswersHold(t, classify)
    ensures AnswersHold(AfterAnswer(t, id, field, value, classify).0, classify)
  {
    hide Holds, Fill, Evaluate, NextQuestion;
    ReadIsStored(t, id);
    var u := AfterAnswer(t, id, field, value, classify).0;
    if u != t {
      FillHolds(t.sessions[id].profile, field, value, classify);
      hide ReadSession;
      forall k | k in u.answers
        ensures k.sessionId in u.sessions && Holds(u.sessions[k.sessionId].profile, k.field, u.answers[k], classify)
      {
        if k != AnswerKey(id, field) {
          assert k in t.answers;
        }
      }
    }
  }

  lemma CopyHolds(t: Tables, id: string, successor: string, classify: Classifier, k: AnswerKey)
    requires AnswersHold(t, classify) && k in Copied(t.answers, id, successor)
    ensures k.sessionId == successor && id in t.sessions
    ensures Holds(t.sessions[id].profile, k.field, Copied(t.answers, id, successor)[k], classify)
  {
    hide Holds;
    var source := AnswerKey(id, k.field);
    assert source in t.answers;
  }

  lemma CloneKeepsAnswers(t: Tables, id: string, successor: string, classify: Classifier)
    requires AnswersHold(t, classify)
    ensures AnswersHold(AfterClone(t, id, successor).0, classify)
  {
    hide Holds, Copied, Evaluate;
    ReadIsStored(t, id);
    var u := AfterClone(t, id, successor).0;
    if u != t {
      hide ReadSession;
      forall k | k in u.answers
        ensures k.sessionId in u.sessions && Holds(u.sessions[k.sessionId].profile, k.field, u.answers[k], classify)
      {
        if k in Copied(t.answers, id, successor) {
          CopyHolds(t, id, successor, classify, k);
        }
      }
    }
  }

  /** Over every run, each stored answer is what the session's profile holds for its field, in clones as well. */
  lemma {:induction false} ProfileIsAnswered(ops: seq<Operation>, classify: Classifier)
    ensures AnswersHold(Run(ops, classify), classify)
  {
    if ops != [] {
      var n := |ops| - 1;
      ProfileIsAnswered(ops[..n], classify);
      var t := Run(ops[..n], classify);
      hide Holds, AfterAnswer, AfterClone;
      match ops[n]
      case Start(id, task, profile) =>
      case Answer(id, field, value) => AnswerKeepsAnswers(t, id, field, value, classify);
      case Clone(id, successor) => CloneKeepsAnswers(t, id, successor, classify);
    }
  }
}
