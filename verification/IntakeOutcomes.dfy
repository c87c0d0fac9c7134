/** What starts, answers and clones answer and store. */
module IntakeOutcomes {
  import opened Wrappers
  import opened IntakeSessions

  /** Everything that the task needs is known. */
  predicate NothingMissing(p: Profile) {
    p.taskType.Some? && p.target.Some? && p.expected.Some?
  }

  /** The status of a session that can still ask. */
  predicate StatusFits(s: Session) {
    s.status == if NothingMissing(s.profile) then Ready else if s.questionCount < 3 then Active else Exhausted
  }

  lemma EvaluationFits(task: string, p: Profile, count: nat)
    ensures StatusFits(Session(task, p, Evaluate(p, count), count))
    ensures Missing(p) == {} <==> NothingMissing(p)
  {
    assert p.taskType.None? ==> TaskTypeField in Missing(p);
    assert p.target.None? ==> TargetField in Missing(p);
    assert p.expected.None? ==> ExpectedField in Missing(p);
  }

  /** A start stores the given task and profile with no question asked, under an identifier that is free. */
  lemma StartStores(t: Tables, id: string, task: string, profile: Profile)
    ensures var (u, reply) := AfterStart(t, id, task, profile);
            if id in t.sessions then u == t && reply == Conflict
            else && reply == Accepted(u.sessions[id], false) && u.answers == t.answers
                 && u.sessions == t.sessions[id := u.sessions[id]]
                 && u.sessions[id].task == task && u.sessions[id].profile == profile && u.sessions[id].questionCount == 0
                 && StatusFits(u.sessions[id])
  {
    EvaluationFits(task, profile, 0);
    hide Evaluate, StatusFits;
  }

  /** The field that a session asks for: the task type, then the target, then the expected result. */
  predicate AsksFor(s: Session, field: Field) {
    && s.questionCount < 3
    && match field
       case TaskTypeField => s.profile.taskType.None?
       case TargetField => s.profile.taskType.Some? && s.profile.target.None?
       case ExpectedField => s.profile.taskType.Some? && s.profile.target.Some? && s.profile.expected.None?
       case ConstraintsField => false
  }

  lemma AsksInOrder(s: Session, field: Field)
    ensures NextQuestion(s.profile, s.questionCount) == Some(field) <==> AsksFor(s, field)
  {
  }

  /** The profile with one field set. */
  function With(p: Profile, field: Field, value: string, taskType: Option<TaskType>): Profile {
    match field
    case TaskTypeField => Profile(taskType, p.target, p.expected, p.constraints)
    case TargetField => Profile(p.taskType, Some(value), p.expected, p.constraints)
    case ExpectedField => Profile(p.taskType, p.target, Some(value), p.constraints)
    case ConstraintsField => Profile(p.taskType, p.target, p.expected, Some(value))
  }

  /** A stored session can be answered when it is active, asks for this field, has no answer to it, and a task type is one of the
      known ones. */
  ghost predicate CanAnswer(t: Tables, id: string, field: Field, value: string, classify: Classifier) {
    && value != "" && id in t.sessions && t.sessions[id].status == Active && AnswerKey(id, field) !in t.answers
    && AsksFor(t.sessions[id], field) && (field.TaskTypeField? ==> classify(value).Some?)
  }

  /** A new answer is accepted exactly then; it sets its field and no other, counts one question, and is stored. */
  lemma AnswerStores(t: Tables, id: string, field: Field, value: string, classify: Classifier)
    requires Inv(t)
    ensures var (u, reply) := AfterAnswer(t, id, field, value, classify);
            && (u != t <==> CanAnswer(t, id, field, value, classify))
            && (u != t ==>
                  && reply == Accepted(u.sessions[id], false)
                  && u.answers == t.answers[AnswerKey(id, field) := value]
                  && u.sessions == t.sessions[id := u.sessions[id]]
                  && u.sessions[id].task == t.sessions[id].task
                  && u.sessions[id].profile == With(t.sessions[id].profile, field, value, classify(value))
                  && u.sessions[id].questionCount == t.sessions[id].questionCount + 1
                  && StatusFits(u.sessions[id]))
  {
    hide AnsweredFields, Evaluate, StatusFits, Missing, NextQuestion, AsksFor;
    if id in t.sessions {
      var s := t.sessions[id];
      AsksInOrder(s, field);
      SoundIsRead(t, id);
      FillSucceeds(s.profile, field, value, classify);
      EvaluationFits(s.task, With(s.profile, field, value, classify(value)), s.questionCount + 1);
    }
    hide Inv;
  }

  lemma SoundIsRead(t: Tables, id: string)
    requires Inv(t) && id in t.sessions
    ensures ReadSession(t, id) == Ok(t.sessions[id])
  {
    hide AnsweredFields, Evaluate, Missing;
  }

  /** What an answer that is not stored is told. */
  lemma OtherAnswers(t: Tables, id: string, field: Field, value: string, classify: Classifier)
    requires Inv(t)
    ensures var (u, reply) := AfterAnswer(t, id, field, value, classify);
            && (value == "" ==> reply == Validation)
            && (value != "" && id !in t.sessions ==> reply == NotFound)
            && (value != "" && id in t.sessions && AnswerKey(id, field) in t.answers ==>
                  u == t && reply == if t.answers[AnswerKey(id, field)] == value then Accepted(t.sessions[id], true) else Conflict)
            && (value != "" && id in t.sessions && AnswerKey(id, field) !in t.answers && !CanAnswer(t, id, field, value, classify) ==>
                  reply == if t.sessions[id].status == Active && AsksFor(t.sessions[id], field) then Validation else Conflict)
  {
    hide AnsweredFields, Evaluate, Missing, NextQuestion, AsksFor;
    if id in t.sessions {
      SoundIsRead(t, id);
      AsksInOrder(t.sessions[id], field);
    }
    hide Inv;
  }

  /** A clone is a second session with the same task, profile, status, count and answers; nothing else changes. */
  lemma CloneCopies(t: Tables, id: string, successor: string)
    requires Inv(t)
    ensures var (u, reply) := AfterClone(t, id, successor);
            && (id !in t.sessions ==> u == t && reply == NotFound)
            && (id in t.sessions && successor in t.sessions ==> u == t && reply == Conflict)
            && (id in t.sessions && successor !in t.sessions ==>
                  && reply == Accepted(t.sessions[id], false) && u.sessions == t.sessions[successor := t.sessions[id]]
                  && (forall field: Field :: AnswerKey(successor, field) in u.answers <==> AnswerKey(id, field) in t.answers)
                  && (forall field: Field | AnswerKey(id, field) in t.answers ::
                        u.answers[AnswerKey(successor, field)] == t.answers[AnswerKey(id, field)])
                  && (forall key: AnswerKey | key.sessionId != successor ::
                        (key in u.answers <==> key in t.answers) && (key in t.answers ==> u.answers[key] == t.answers[key])))
  {
    hide AnsweredFields, Evaluate, Missing, ReadSession;
    if id in t.sessions {
      SoundIsRead(t, id);
      if successor !in t.sessions {
        FreshHasNoAnswers(t, successor);
        hide Inv;
        forall key: AnswerKey
          ensures key in Copied(t.answers, id, successor) <==> key.sessionId == successor && AnswerKey(id, key.field) in t.answers
        {
          CopiedKey(t.answers, id, successor, key);
        }
      }
    } else {
      UnknownIsNotRead(t, id);
    }
  }

  lemma UnknownIsNotRead(t: Tables, id: string)
    requires id !in t.sessions
    ensures ReadSession(t, id) == Err(NotFound)
  {
  }

  lemma FreshHasNoAnswers(t: Tables, id: string)
    requires Inv(t) && id !in t.sessions
    ensures forall key | key in t.answers :: key.sessionId != id
  {
  }
}
