/**
 * One answer on the question page: its like button, its bookmark (which is
 * `SavedItems.ToggleSave` with `AnswerItem`) and its list of attachments.
 */
module AnswerCard {
  import opened Wrappers
  import opened Strings
  import opened Js
  import opened FileUrls
  import SavedItems
  import QuestionDetail

  /** `user?.id || user?._id`: `undefined` when nobody is signed in. */
  function ViewerKey(user: Option<Record>): (k: Json)
    ensures user.None? ==> k == JUndef
    ensures user.Some? ==> k == QuestionDetail.UserKey(user.value)
  {
    match user
    case None => JUndef
    case Some(u) => Or(Get(u, "id"), Get(u, "_id"))
  }

  /** The card's `likedByUser`, which unlike the question page's does not first check for a user. */
  predicate LikedByViewer(answer: Record, user: Option<Record>) {
    SavedItems.ListHas(Get(answer, "likes"), ViewerKey(user))
  }

  /** With someone signed in, the card and the question page decide a like alike. */
  lemma CardLikeAgreesWithQuestionPage(answer: Record, user: Record)
    ensures LikedByViewer(answer, Some(user)) <==> QuestionDetail.LikedByUser(Some(answer), Some(user))
  {
  }

  /** Signed out, an answer shows as liked exactly when its likes hold a `null` or missing entry. */
  lemma {:induction false} SignedOutLikeNeedsMissingEntry(answer: Record, likes: seq<Json>)
    requires Get(answer, "likes") == JArr(likes)
    ensures LikedByViewer(answer, None) <==> exists i :: 0 <= i < |likes| && (likes[i].JUndef? || likes[i].JNull?)
  {
    if exists i :: 0 <= i < |likes| && (likes[i].JUndef? || likes[i].JNull?) {
      var i :| 0 <= i < |likes| && (likes[i].JUndef? || likes[i].JNull?);
      assert StrictEq(OptToString(likes[i]), JUndef);
    }
  }

  /** For string ids, a signed-in viewer has liked the answer exactly when their id is among its likes. */
  lemma {:induction false} AnswerLikedIffListed(answer: Record, user: Record, id: string, likes: seq<Json>)
    requires QuestionDetail.UserKey(user) == JStr(id) && Get(answer, "likes") == JArr(likes) && SavedItems.IdStrings(likes)
    ensures LikedByViewer(answer, Some(user)) <==> JStr(id) in likes
  {
    if JStr(id) in likes {
      var i :| 0 <= i < |likes| && likes[i] == JStr(id);
      assert StrictEq(OptToString(likes[i]), JStr(id));
    }
  }

  /** `answer.likes?.length || 0`: entries of an array, characters of a string, otherwise 0. */
  function LikeCount(answer: Record): (n: nat)
    ensures Get(answer, "likes").JArr? ==> n == |Get(answer, "likes").items|
    ensures Get(answer, "likes").JStr? ==> n == |Get(answer, "likes").s|
    ensures !Get(answer, "likes").JArr? && !Get(answer, "likes").JStr? ==> n == 0
  {
    match Get(answer, "likes")
    case JArr(items) => |items|
    case JStr(s) => |s|
    case _ => 0
  }

  /** A liked answer never shows a count of zero. */
  lemma LikedHasCount(answer: Record, user: Option<Record>)
    requires LikedByViewer(answer, user)
    ensures LikeCount(answer) >= 1
  {
  }

  const LikeNeedsLogin := "Beğenmek için önce giriş yapmalısın."
  const LikeRemoved := "Beğeni kaldırıldı"
  const AnswerLiked := "Cevap beğenildi"
  const LikeFailed := "İşlem başarısız"

  /** The request body names the question and the answer's `_id`. */
  datatype AnswerLikeRequest =
    | LikeAnswer(questionId: Json, answerId: Json)
    | UndoLikeAnswer(questionId: Json, answerId: Json)

  datatype LikeReply = LikeDone | LikeRejected(serverMessage: Option<string>)

  /** `handleLikeToggle`: sign-in required before any request; then the request and its toast. */
  function LikeToggle(questionId: Json, answer: Record, user: Option<Record>, reply: LikeReply)
    : (r: (Option<AnswerLikeRequest>, string))
    ensures user.None? <==> r.0.None?
    ensures user.None? ==> r.1 == LikeNeedsLogin
    ensures r.0.Some? ==>
              r.0.value.questionId == questionId && r.0.value.answerId == Get(answer, "_id")
              && (r.0.value.UndoLikeAnswer? <==> LikedByViewer(answer, user))
    ensures r.0.Some? && reply.LikeDone? ==> r.1 == (if LikedByViewer(answer, user) then LikeRemoved else AnswerLiked)
    ensures r.0.Some? && reply.LikeRejected? ==> r.1 == OrText(reply.serverMessage, LikeFailed)
  {
    if user.None? then (None, LikeNeedsLogin)
    else
      var liked := LikedByViewer(answer, user);
      var request := if liked then UndoLikeAnswer(questionId, Get(answer, "_id")) else LikeAnswer(questionId, Get(answer, "_id"));
      match reply
      case LikeDone => (Some(request), if liked then LikeRemoved else AnswerLiked)
      case LikeRejected(m) => (Some(request), OrText(m, LikeFailed))
  }

  /** How the card shows one attachment: the link, the name and whether it is drawn as an image. */
  datatype AttachmentView = AttachmentView(href: string, name: string, isImage: bool)

  /** `` `Dosya ${idx + 1}` `` */
  function FallbackName(idx: nat): (name: string)
    ensures |name| > 6 && name[..6] == "Dosya " && IsDigit(name[|name| - 1])
  {
    "Dosya " + NatToString(idx + 1)
  }

  /** The attachment at position `idx`: `getFileUrl(file) || "#"`, the last segment or "Dosya <idx+1>", the image test on that name. */
  function ViewAttachment(origin: string, file: string, idx: nat): (v: AttachmentView)
    ensures v.name != ""
    ensures LastSegment(file) != "" ==> v.name == LastSegment(file)
    ensures LastSegment(file) == "" ==> v.name == FallbackName(idx)
    ensures file == "" ==> v.href == "#"
    ensures file != "" ==> Some(v.href) == FileUrl(origin, Some(file))
  {
    var name := AttachmentName(file, FallbackName(idx));
    AttachmentView(FileUrl(origin, Some(file)).GetOr("#"), name, IsImageName(name))
  }

  /** The attachment list, position by position. */
  function ViewAttachments(origin: string, files: seq<string>): (vs: seq<AttachmentView>)
    ensures |vs| == |files|
    ensures forall i :: 0 <= i < |files| ==> vs[i] == ViewAttachment(origin, files[i], i)
  {
    seq(|files|, i requires 0 <= i < |files| => ViewAttachment(origin, files[i], i))
  }

  /** A name ending in a digit is never taken for an image. */
  lemma DigitEndIsNoImage(name: string)
    requires name != [] && IsDigit(name[|name| - 1])
    ensures !IsImageName(name)
  {
    var lower := LowerAsciiString(name);
    assert IsDigit(lower[|lower| - 1]);
  }

  /** The card draws an attachment as an image exactly when its path ends in an image extension. */
  lemma ImageExactlyByPath(origin: string, file: string, idx: nat)
    ensures ViewAttachment(origin, file, idx).isImage <==> IsImageName(file)
  {
    EndsWithSegment(file, ".jpg");
    EndsWithSegment(file, ".jpeg");
    EndsWithSegment(file, ".png");
    EndsWithSegment(file, ".gif");
    if LastSegment(file) == "" {
      DigitEndIsNoImage(FallbackName(idx));
    }
  }
}
