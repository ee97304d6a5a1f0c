/**
 * The question page: like and ownership checks against the signed-in user,
 * the answers listed apart from the best one, and the answer form's checks
 * and multipart body. Attachment picking is `Attachments.FileSelection`,
 * file URLs are `FileUrls.FileUrl`, and the bookmark toggle is
 * `SavedItems.ToggleSave` with `QuestionItem`.
 */
module QuestionDetail {
  import Seqs
  import opened Wrappers
  import opened Strings
  import opened Js
  import opened Attachments
  import SavedItems

  /** `user.id || user._id` */
  function UserKey(user: Record): (k: Json)
    ensures Truthy(Get(user, "id")) ==> k == Get(user, "id")
    ensures !Truthy(Get(user, "id")) ==> k == Get(user, "_id")
  {
    Or(Get(user, "id"), Get(user, "_id"))
  }

  /** `likedByUser`: some entry of `question.likes`, as text, is the user's key. */
  function LikedByUser(question: Option<Record>, user: Option<Record>): (liked: bool)
    ensures liked ==> question.Some? && user.Some?
    ensures liked ==> Get(question.value, "likes").JArr? && |Get(question.value, "likes").items| > 0
  {
    question.Some? && user.Some? && SavedItems.ListHas(Get(question.value, "likes"), UserKey(user.value))
  }

  /** For string ids, the question is liked exactly when the user's id is among its likes. */
  lemma LikedIffListed(question: Record, user: Record, id: string, likes: seq<Json>)
    requires UserKey(user) == JStr(id) && Get(question, "likes") == JArr(likes) && SavedItems.IdStrings(likes)
    ensures LikedByUser(Some(question), Some(user)) <==> JStr(id) in likes
  {
    if JStr(id) in likes {
      var i :| 0 <= i < |likes| && likes[i] == JStr(id);
      assert StrictEq(OptToString(likes[i]), JStr(id));
    }
  }

  datatype LikeRequest = LikeQuestion(id: string) | UndoLikeQuestion(id: string)

  /** `handleQuestionLike`: sign-in required; a liked question is un-liked, any other liked. */
  function LikeClick(routeId: string, question: Option<Record>, user: Option<Record>): (r: Result<LikeRequest, string>)
    ensures r.Err? <==> user.None?
    ensures r.Err? ==> r.error == "Beğenmek için giriş yapmalısın."
    ensures r.Ok? ==> r.value.id == routeId && (r.value.UndoLikeQuestion? <==> LikedByUser(question, user))
  {
    if user.None? then Err("Beğenmek için giriş yapmalısın.")
    else if LikedByUser(question, user) then Ok(UndoLikeQuestion(routeId))
    else Ok(LikeQuestion(routeId))
  }

  datatype SolveRequest = MarkSolved(id: string) | MarkUnsolved(id: string)

  /** `handleToggleSolved`: a solved question is marked unsolved, any other solved. */
  function SolveClick(routeId: string, question: Record, user: Option<Record>): (r: Result<SolveRequest, string>)
    ensures r.Err? <==> user.None?
    ensures r.Ok? ==> r.value.id == routeId && (r.value.MarkUnsolved? <==> Truthy(Get(question, "solved")))
  {
    if user.None? then Err("Bu işlem için giriş yapmalısın.")
    else if Truthy(Get(question, "solved")) then Ok(MarkUnsolved(routeId))
    else Ok(MarkSolved(routeId))
  }

  /** `record.user?.<key>`: only a populated author object has properties. */
  function AuthorField(r: Record, key: string): (v: Json)
    ensures !Get(r, "user").JObj? ==> v == JUndef
  {
    match Get(r, "user")
    case JObj(author) => Get(author, key)
    case _ => JUndef
  }

  /** `isQuestionOwner` as written: any of the four id pairings is `===`. */
  function IsQuestionOwnerAsWritten(user: Option<Record>, question: Option<Record>): (owns: bool)
    ensures owns ==> user.Some? && question.Some?
    ensures user.Some? && question.Some? && Get(user.value, "id") == JUndef && AuthorField(question.value, "id") == JUndef ==> owns
  {
    user.Some? && question.Some? &&
    var u, q := user.value, question.value;
    || StrictEq(Get(u, "id"), AuthorField(q, "_id"))
    || StrictEq(Get(u, "id"), AuthorField(q, "id"))
    || StrictEq(Get(u, "_id"), AuthorField(q, "_id"))
    || StrictEq(Get(u, "_id"), AuthorField(q, "id"))
  }

  /** Two missing ids compare equal: a user known only by `_id` owns another user's question. */
  lemma StrangerOwnsAsWritten()
    ensures IsQuestionOwnerAsWritten(Some(map["_id" := JStr("u1")]),
                                     Some(map["user" := JObj(map["_id" := JStr("u2")])]))
    ensures IsQuestionOwnerAsWritten(Some(map["_id" := JStr("u1")]), Some(map["user" := JStr("u2")]))
  {
    var u: Record := map["_id" := JStr("u1")];
    assert Get(u, "id") == JUndef;
    assert AuthorField(map["user" := JObj(map["_id" := JStr("u2")])], "id") == JUndef;
    assert AuthorField(map["user" := JStr("u2")], "id") == JUndef;
  }

  /** The ids a record is known by: its truthy, primitive `id` and `_id` values. */
  function KnownIds(r: Record): (ids: set<Json>)
    ensures forall v :: v in ids ==> Truthy(v) && !v.JObj? && !v.JArr?
  {
    (if Truthy(Get(r, "id")) && !Get(r, "id").JObj? && !Get(r, "id").JArr? then {Get(r, "id")} else {})
    + (if Truthy(Get(r, "_id")) && !Get(r, "_id").JObj? && !Get(r, "_id").JArr? then {Get(r, "_id")} else {})
  }

  /** The ids of a question's author, when the author object is populated. */
  function AuthorIds(q: Record): set<Json> {
    match Get(q, "user")
    case JObj(author) => KnownIds(author)
    case _ => {}
  }

  /** `isQuestionOwner` with a pairing counted only when the user's id is present. */
  function IsQuestionOwner(user: Option<Record>, question: Option<Record>): (owns: bool)
    ensures owns ==> IsQuestionOwnerAsWritten(user, question)
    ensures owns ==> KnownIds(user.value) != {}
  {
    user.Some? && question.Some? &&
    var u, q := user.value, question.value;
    || (Truthy(Get(u, "id")) && (StrictEq(Get(u, "id"), AuthorField(q, "_id")) || StrictEq(Get(u, "id"), AuthorField(q, "id"))))
    || (Truthy(Get(u, "_id")) && (StrictEq(Get(u, "_id"), AuthorField(q, "_id")) || StrictEq(Get(u, "_id"), AuthorField(q, "id"))))
  }

  /** The corrected check holds exactly when the user and the author share an id. */
  lemma OwnerIffSharedId(user: Record, question: Record)
    ensures IsQuestionOwner(Some(user), Some(question)) <==> KnownIds(user) * AuthorIds(question) != {}
  {
    if IsQuestionOwner(Some(user), Some(question)) {
      var v := if Truthy(Get(user, "id")) && (StrictEq(Get(user, "id"), AuthorField(question, "_id")) || StrictEq(Get(user, "id"), AuthorField(question, "id")))
               then Get(user, "id") else Get(user, "_id");
      assert v in KnownIds(user);
      assert Get(question, "user").JObj?;
      assert v in AuthorIds(question);
    }
  }

  /** Every owner under the corrected check is an owner as written; with both user ids present the two agree. */
  lemma CorrectedOwnerRefinesAsWritten(user: Option<Record>, question: Option<Record>)
    ensures IsQuestionOwner(user, question) ==> IsQuestionOwnerAsWritten(user, question)
    ensures user.Some? && Truthy(Get(user.value, "id")) && Truthy(Get(user.value, "_id")) ==>
              (IsQuestionOwner(user, question) <==> IsQuestionOwnerAsWritten(user, question))
  {
  }

  /** A user without ids owns nothing under the corrected check. */
  lemma NoIdNoOwnership(user: Record, question: Record)
    requires KnownIds(user) == {}
    ensures !IsQuestionOwner(Some(user), Some(question))
  {
    OwnerIffSharedId(user, question);
  }

  /** The delete button beside an answer, as written: `user.id` against the author's `_id` or `id`. */
  function CanDeleteAnswerAsWritten(user: Option<Record>, answer: Record): (shown: bool)
    ensures shown ==> user.Some?
    ensures user.Some? && Get(user.value, "id") == JUndef && AuthorField(answer, "id") == JUndef ==> shown
  {
    user.Some? &&
    (StrictEq(Get(user.value, "id"), AuthorField(answer, "_id")) || StrictEq(Get(user.value, "id"), AuthorField(answer, "id")))
  }

  /** A user known only by `_id` is offered the delete button on someone else's answer. */
  lemma StrangerDeletesAsWritten()
    ensures CanDeleteAnswerAsWritten(Some(map["_id" := JStr("u1")]), map["user" := JObj(map["_id" := JStr("u2")])])
  {
    assert Get(map["_id" := JStr("u1")], "id") == JUndef;
    assert AuthorField(map["user" := JObj(map["_id" := JStr("u2")])], "id") == JUndef;
  }

  /** The delete button with the user's `id` required to be present. */
  function CanDeleteAnswer(user: Option<Record>, answer: Record): (shown: bool)
    ensures shown ==> CanDeleteAnswerAsWritten(user, answer)
    ensures shown ==> Get(user.value, "id") in AuthorIds(answer)
  {
    user.Some? && Truthy(Get(user.value, "id")) &&
    (StrictEq(Get(user.value, "id"), AuthorField(answer, "_id")) || StrictEq(Get(user.value, "id"), AuthorField(answer, "id")))
  }

  /** The corrected button is shown only to a user whose `id` is one of the author's ids. */
  lemma DeleteNeedsSharedId(user: Record, answer: Record)
    ensures CanDeleteAnswer(Some(user), answer) <==> Truthy(Get(user, "id")) && Get(user, "id") in AuthorIds(answer) && !Get(user, "id").JObj? && !Get(user, "id").JArr?
    ensures CanDeleteAnswer(Some(user), answer) ==> CanDeleteAnswerAsWritten(Some(user), answer)
  {
  }

  /** The answers whose `_id` is not `id`, in order. */
  function WithoutId(answers: seq<Record>, id: Json): (r: seq<Record>)
    ensures |r| <= |answers|
    ensures forall a :: a in r <==> a in answers && !StrictEq(Get(a, "_id"), id)
  {
    if answers == [] then []
    else
      var init := answers[..|answers| - 1];
      var last := answers[|answers| - 1];
      assert answers == init + [last];
      WithoutId(init, id) + (if StrictEq(Get(last, "_id"), id) then [] else [last])
  }

  /** The filter drops every copy of the answers with that `_id` and keeps every copy of the others. */
  lemma {:induction false} WithoutIdCounts(answers: seq<Record>, id: Json)
    ensures forall a :: multiset(WithoutId(answers, id))[a] == if StrictEq(Get(a, "_id"), id) then 0 else multiset(answers)[a]
  {
    if answers != [] {
      var init, last := answers[..|answers| - 1], answers[|answers| - 1];
      assert answers == init + [last];
      WithoutIdCounts(init, id);
    }
  }

  /** The filter keeps order: filtering two runs of answers one after the other is filtering them joined. */
  lemma {:induction false} WithoutIdConcat(a: seq<Record>, b: seq<Record>, id: Json)
    ensures WithoutId(a + b, id) == WithoutId(a, id) + WithoutId(b, id)
  {
    if b == [] {
      assert a + b == a;
    } else {
      var init, last := b[..|b| - 1], b[|b| - 1];
      var tail := if StrictEq(Get(last, "_id"), id) then [] else [last];
      assert b == init + [last] && a + b == (a + init) + [last];
      Seqs.SnocParts(a + init, last);
      Seqs.SnocParts(init, last);
      calc {
        WithoutId(a + b, id);
        WithoutId(a + init, id) + tail;
        { WithoutIdConcat(a, init, id); }
        WithoutId(a, id) + WithoutId(init, id) + tail;
        WithoutId(a, id) + (WithoutId(init, id) + tail);
        WithoutId(a, id) + WithoutId(b, id);
      }
    }
  }

  /** `regularAnswers`: without a best-answer id every answer is listed; otherwise the best one is left out. */
  function RegularAnswers(answers: seq<Record>, best: Option<Record>): (r: seq<Record>)
    ensures !Truthy(GetOpt(best, "_id")) ==> r == answers
    ensures Truthy(GetOpt(best, "_id")) ==>
              forall a :: a in r <==> a in answers && !StrictEq(Get(a, "_id"), GetOpt(best, "_id"))
  {
    var bestId := GetOpt(best, "_id");
    if Truthy(bestId) then WithoutId(answers, bestId) else answers
  }

  /** With a string id, the best answer is never listed a second time, and every other answer is. */
  lemma BestAnswerShownOnce(answers: seq<Record>, best: Record, id: string)
    requires Get(best, "_id") == JStr(id) && id != ""
    ensures best !in RegularAnswers(answers, Some(best))
    ensures forall a :: a in answers && Get(a, "_id") != JStr(id) ==> a in RegularAnswers(answers, Some(best))
  {
  }

  /** The "no answers yet" notice: nothing listed and no best answer. */
  function ShowsNoAnswers(answers: seq<Record>, best: Option<Record>): (empty: bool)
    ensures empty <==> answers == [] && best.None?
  {
    RegularAnswers(answers, best) == [] && best.None?
  }

  const AnswerMin := 10
  const AnswerNeedsLogin := "Cevap yazmak için giriş yapmalısın."
  const AnswerTooShort := "Cevap en az 10 karakter olmalı"
  const AnswerAdded := "Cevap eklendi"
  const AnswerFailed := "Cevap eklenemedi"

  /** The answer handler's checks: sign-in first, then the trimmed length. */
  function AnswerCheck(user: Option<Record>, content: string): (err: Option<string>)
    ensures err == None <==> user.Some? && |Trim(content)| >= AnswerMin
    ensures user.None? ==> err == Some(AnswerNeedsLogin)
    ensures user.Some? && |Trim(content)| < AnswerMin ==> err == Some(AnswerTooShort)
  {
    if user.None? then Some(AnswerNeedsLogin)
    else if |Trim(content)| < AnswerMin then Some(AnswerTooShort)
    else None
  }

  /** The answer body: the trimmed content, then one entry per file. */
  function AnswerPayload(content: string, files: seq<PickedFile>): (fd: FormData)
    ensures |fd| == 1 + |files|
    ensures fd[0] == ("content", Text(Trim(content)))
    ensures forall i :: 0 <= i < |files| ==> fd[i + 1] == ("attachments", Upload(files[i]))
  {
    [("content", Text(Trim(content)))] + FileEntries("attachments", files)
  }

  /** What the server reads back from the answer body. */
  lemma AnswerPayloadFields(content: string, files: seq<PickedFile>)
    ensures ValuesUnder(AnswerPayload(content, files), "content") == [Text(Trim(content))]
    ensures ValuesUnder(AnswerPayload(content, files), "attachments") == Uploads(files)
  {
    var head: FormData := [("content", Text(Trim(content)))];
    assert head[..0] == [];
    ValuesUnderConcat(head, FileEntries("attachments", files), "content");
    ValuesUnderConcat(head, FileEntries("attachments", files), "attachments");
    FileEntriesReadBack("attachments", files, "content");
  }

  datatype AnswerReply = Added | Rejected(serverMessage: Option<string>)

  /**
   * `onSubmitAnswer`, called once the schema (ten characters as typed)
   * passed: the body goes to the question of the route, and a success
   * clears the picked files.
   */
  method SubmitAnswer(user: Option<Record>, content: string, questionId: string, selection: FileSelection,
                      reply: AnswerReply)
    returns (sent: Option<(string, FormData)>, toast: string)
    requires |content| >= AnswerMin
    modifies selection
    ensures AnswerCheck(user, content).Some? ==>
              sent.None? && toast == AnswerCheck(user, content).value && selection.files == old(selection.files)
    ensures AnswerCheck(user, content).None? ==>
              sent == Some((questionId, AnswerPayload(content, old(selection.files))))
    ensures AnswerCheck(user, content).None? && reply.Added? ==> toast == AnswerAdded && selection.files == []
    ensures AnswerCheck(user, content).None? && reply.Rejected? ==>
              toast == OrText(reply.serverMessage, AnswerFailed) && selection.files == old(selection.files)
  {
    var err := AnswerCheck(user, content);
    if err.Some? {
      return None, err.value;
    }
    var body := [("content", Text(Trim(content)))];
    body := AppendFiles(body, "attachments", selection.files);
    sent := Some((questionId, body));
    match reply
    case Rejected(serverMessage) =>
      toast := OrText(serverMessage, AnswerFailed);
    case Added =>
      toast := AnswerAdded;
      selection.Clear();
  }
}
