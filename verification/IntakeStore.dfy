/** The intake tables, written row by row; the compare-and-set updates never lose. */
module IntakeStore {
  import opened IntakeSessions

  class Store {
    var sessions: map<string, Session>
    var answers: map<AnswerKey, string>

    function Snapshot(): Tables
      reads this
    {
      Tables(sessions, answers)
    }

    constructor ()
      ensures Snapshot() == Tables(map[], map[]) && Inv(Snapshot())
    {
      sessions, answers := map[], map[];
    }

    /** Fails on a taken identifier, and on a status that evaluation would not give. */
    method InsertSession(id: string, s: Session) returns (ok: bool)
      modifies this`sessions
      ensures ok <==> id !in old(sessions) && s.questionCount <= MAX_QUESTIONS && s.status == Evaluate(s.profile, s.questionCount)
      ensures sessions == if ok then old(sessions)[id := s] else old(sessions)
    {
      ok := id !in sessions && s.questionCount <= MAX_QUESTIONS && s.status == Evaluate(s.profile, s.questionCount);
      if ok {
        sessions := sessions[id := s];
      }
    }

    /** Compare and set: only an active session with the expected count changes, and only by one question. */
    method UpdateSession(id: string, expected: nat, s: Session) returns (ok: bool)
      requires id in sessions
      modifies this`sessions
      ensures ok <==> && old(sessions)[id].status.Active? && old(sessions)[id].questionCount == expected
                      && s.questionCount == expected + 1 && s.questionCount <= MAX_QUESTIONS
                      && s.status == Evaluate(s.profile, s.questionCount)
      ensures sessions == if ok then old(sessions)[id := s] else old(sessions)
    {
      var current := sessions[id];
      ok := && current.status.Active? && current.questionCount == expected
            && s.questionCount == expected + 1 && s.questionCount <= MAX_QUESTIONS
            && s.status == Evaluate(s.profile, s.questionCount);
      if ok {
        sessions := sessions[id := s];
      }
    }

    method StartSession(id: string, task: string, profile: Profile) returns (reply: Reply)
      modifies this
      ensures (Snapshot(), reply) == AfterStart(old(Snapshot()), id, task, profile)
    {
      var s := Session(task, profile, Evaluate(profile, 0), 0);
      var ok := InsertSession(id, s);
      reply := if ok then Accepted(s, false) else Conflict;
    }

    /** Neither the answer row nor the session row can turn out to be taken or stale. */
    method AnswerQuestion(id: string, field: Field, value: string, classify: Classifier) returns (reply: Reply)
      requires Inv(Snapshot())
      modifies this
      ensures (Snapshot(), reply) == AfterAnswer(old(Snapshot()), id, field, value, classify)
      ensures Inv(Snapshot())
    {
      hide Answered, Evaluate, SessionSound, AnsweredFields;
      AnswerKeeps(Snapshot(), id, field, value, classify);
      if value == "" {
        return Validation;
      }
      var read := ReadSession(Snapshot(), id);
      ReadIsStored(Snapshot(), id);
      if read.Err? {
        return read.error;
      }
      var s, key := read.value, AnswerKey(id, field);
      if key in answers {
        return if answers[key] == value then Accepted(s, true) else Conflict;
      }
      if !s.status.Active? {
        return Conflict;
      }
      var next := Answered(s, field, value, classify);
      if next.Err? {
        return next.error;
      }
      AnsweredAdvances(s, field, value, classify);
      answers := answers[key := value];
      var ok := UpdateSession(id, s.questionCount, next.value);
      assert ok;
      return Accepted(next.value, false);
    }

    method CloneSession(id: string, successor: string) returns (reply: Reply)
      requires Inv(Snapshot())
      modifies this
      ensures (Snapshot(), reply) == AfterClone(old(Snapshot()), id, successor)
      ensures Inv(Snapshot())
    {
      hide Inv, Copied;
      CloneKeeps(Snapshot(), id, successor);
      var read := ReadSession(Snapshot(), id);
      if read.Err? {
        return read.error;
      }
      var ok := InsertSession(successor, read.value);
      if !ok {
        return Conflict;
      }
      answers := answers + Copied(answers, id, successor);
      return Accepted(read.value, false);
    }
  }

  lemma AnsweredAdvances(s: Session, field: Field, value: string, classify: Classifier)
    ensures Answered(s, field, value, classify).Ok? ==>
              var n := Answered(s, field, value, classify).value;
              && n.questionCount == s.questionCount + 1 <= MAX_QUESTIONS && n.status == Evaluate(n.profile, n.questionCount)
  {
  }
}
