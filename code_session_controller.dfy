/**
 * The session endpoints: `store` resumes the user's ACTIVE session on a
 * problem or opens one from the problem's code template, and `update` saves
 * the working code (and optionally a new language) of a session.
 */
module CodeSessionController {
  import opened Wrappers
  import opened Records
  import opened Storage

  /** The answer of `store`: 200 with the resumed session's contents, or 201 with the new id; status is ACTIVE in both. */
  datatype StoreResponse =
    | Resumed(sessionId: nat, code: string, language: Option<string>)
    | Created(sessionId: nat)
  {
    function HttpStatus(): (code: nat)
      ensures code == 200 <==> Resumed?
      ensures code == 201 <==> Created?
    {
      if Resumed? then 200 else 201
    }
  }

  /** The answer of `update`. */
  datatype UpdateResponse = UpdateResponse(httpStatus: nat, sessionId: nat, status: string)

  /**
   * The query `where user_id, problem_id, status = ACTIVE ... first()`: the
   * position of the first matching session, or None when none matches.
   */
  function FindActive(sessions: seq<CodeSession>, userId: int, problemId: nat): (r: Option<nat>)
    ensures r.Some? ==> r.value < |sessions| && IsActiveFor(sessions[r.value], userId, problemId)
    ensures r.Some? ==> forall j | 0 <= j < r.value :: !IsActiveFor(sessions[j], userId, problemId)
    ensures r.None? ==> forall j | 0 <= j < |sessions| :: !IsActiveFor(sessions[j], userId, problemId)
  {
    if sessions == [] then None
    else if IsActiveFor(sessions[0], userId, problemId) then Some(0)
    else match FindActive(sessions[1..], userId, problemId)
         case Some(i) => Some(i + 1)
         case None => None
  }

  /** `code_template[lang] ?? ''`: the template for the language, or empty when it is missing or null. */
  function TemplateCode(problem: Problem, language: string): (code: string)
    ensures language in problem.codeTemplate && problem.codeTemplate[language].Some? ==>
      code == problem.codeTemplate[language].value
    ensures language !in problem.codeTemplate || problem.codeTemplate[language].None? ==> code == ""
  {
    if language in problem.codeTemplate then problem.codeTemplate[language].GetOr("") else ""
  }

  /** The session `store` opens: ACTIVE, in the requested language, holding the template (the request's own code is not used). */
  function NewSession(id: nat, userId: int, problemId: nat, language: string, problem: Problem): (s: CodeSession)
    ensures s.id == id && s.userId == userId && s.problemId == problemId
    ensures s.status == ActiveStatus && s.language == Some(language)
    ensures s.code == TemplateCode(problem, language)
  {
    CodeSession(id, userId, problemId, Some(language), TemplateCode(problem, language), ActiveStatus)
  }

  /**
   * The sessions table and the answer after `store`: an ACTIVE session of
   * this user on this problem is returned unchanged; otherwise one new
   * session is appended under the next id.
   */
  function StoreResult(sessions: seq<CodeSession>, problem: Problem, userId: int, problemId: nat, language: string)
    : (r: (seq<CodeSession>, StoreResponse))
    ensures |r.0| >= |sessions| && r.0[..|sessions|] == sessions
    ensures r.1.Created? <==> forall j | 0 <= j < |sessions| :: !IsActiveFor(sessions[j], userId, problemId)
    ensures r.1.Created? ==>
      r.1.sessionId == |sessions| && r.0 == sessions + [NewSession(|sessions|, userId, problemId, language, problem)]
    ensures r.1.Resumed? ==> r.0 == sessions
    ensures r.1.Resumed? && IdsAreIndices(sessions) ==>
      && r.1.sessionId < |sessions|
      && IsActiveFor(sessions[r.1.sessionId], userId, problemId)
      && r.1.code == sessions[r.1.sessionId].code
      && r.1.language == sessions[r.1.sessionId].language
  {
    match FindActive(sessions, userId, problemId)
    case Some(i) =>
      (sessions, Resumed(sessions[i].id, sessions[i].code, sessions[i].language))
    case None =>
      var id := |sessions|;
      (sessions + [NewSession(id, userId, problemId, language, problem)], Created(id))
  }

  /** Under sequential calls `store` keeps every (user, problem) pair to at most one ACTIVE session. */
  lemma StorePreservesAtMostOneActive(sessions: seq<CodeSession>, problem: Problem, userId: int, problemId: nat, language: string)
    requires AtMostOneActive(sessions) && IdsAreIndices(sessions)
    ensures AtMostOneActive(StoreResult(sessions, problem, userId, problemId, language).0)
    ensures IdsAreIndices(StoreResult(sessions, problem, userId, problemId, language).0)
  {
    var r := StoreResult(sessions, problem, userId, problemId, language);
    if r.1.Created? {
      var s' := r.0;
      forall i, j | 0 <= i < j < |s'| && s'[i].status == ActiveStatus
        ensures !IsActiveFor(s'[j], s'[i].userId, s'[i].problemId)
      {
        if j == |sessions| {
          assert s'[i] == sessions[i];
          assert !IsActiveFor(sessions[i], userId, problemId);
        } else {
          assert s'[i] == sessions[i] && s'[j] == sessions[j];
        }
      }
    }
  }

  /**
   * `store` is idempotent: a second call for the same user and problem (with
   * any language and template) creates nothing and returns the session the
   * first call returned.
   */
  lemma StoreIsIdempotent(sessions: seq<CodeSession>, problem: Problem, problem': Problem,
                          userId: int, problemId: nat, language: string, language': string)
    ensures var (s1, r1) := StoreResult(sessions, problem, userId, problemId, language);
            var (s2, r2) := StoreResult(s1, problem', userId, problemId, language');
            s2 == s1 && r2.Resumed? && r2.sessionId == r1.sessionId
  {
    var (s1, r1) := StoreResult(sessions, problem, userId, problemId, language);
    var k := FindActive(s1, userId, problemId);
    if r1.Created? {
      assert IsActiveFor(s1[|sessions|], userId, problemId);
      assert k.Some?;
      assert k.value == |sessions|;
    } else {
      assert s1 == sessions;
      assert k == FindActive(sessions, userId, problemId);
    }
  }

  /** `update`: the new code, and the supplied language or else the old one; nothing else changes. */
  function Updated(s: CodeSession, code: string, language: Option<string>): (r: CodeSession)
    ensures r.code == code
    ensures language.Some? ==> r.language == language
    ensures language.None? ==> r.language == s.language
    ensures r.id == s.id && r.userId == s.userId && r.problemId == s.problemId && r.status == s.status
  {
    s.(code := code, language := if language.Some? then language else s.language)
  }

  /** Saving a session keeps the at-most-one-ACTIVE invariant: status, user and problem are untouched. */
  lemma UpdatePreservesAtMostOneActive(sessions: seq<CodeSession>, i: nat, code: string, language: Option<string>)
    requires i < |sessions| && AtMostOneActive(sessions) && IdsAreIndices(sessions)
    ensures AtMostOneActive(sessions[i := Updated(sessions[i], code, language)])
    ensures IdsAreIndices(sessions[i := Updated(sessions[i], code, language)])
  {
  }

  /** `store`, proved against StoreResult. */
  method Store(db: Database, userId: int, problemId: nat, language: string) returns (response: StoreResponse)
    requires db.Valid()
    requires problemId in db.problems
    modifies db`sessions
    ensures db.Valid()
    ensures (db.sessions, response) == StoreResult(old(db.sessions), db.problems[problemId], userId, problemId, language)
  {
    StorePreservesAtMostOneActive(db.sessions, db.problems[problemId], userId, problemId, language);
    var found := FindActive(db.sessions, userId, problemId);
    if found.Some? {
      var existing := db.sessions[found.value];
      return Resumed(existing.id, existing.code, existing.language);
    }
    var problem := db.problems[problemId];
    var id := |db.sessions|;
    db.sessions := db.sessions + [NewSession(id, userId, problemId, language, problem)];
    response := Created(id);
  }

  /** `update`, proved against Updated; it answers 201 with the id and the unchanged status. */
  method Update(db: Database, sessionId: nat, code: string, language: Option<string>) returns (response: UpdateResponse)
    requires db.Valid()
    requires sessionId < |db.sessions|
    modifies db`sessions
    ensures db.Valid()
    ensures db.sessions == old(db.sessions)[sessionId := Updated(old(db.sessions)[sessionId], code, language)]
    ensures response == UpdateResponse(201, sessionId, old(db.sessions)[sessionId].status)
  {
    UpdatePreservesAtMostOneActive(db.sessions, sessionId, code, language);
    var session := Updated(db.sessions[sessionId], code, language);
    db.sessions := db.sessions[sessionId := session];
    response := UpdateResponse(201, session.id, session.status);
  }
}
