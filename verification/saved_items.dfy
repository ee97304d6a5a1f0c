/**
 * Bookmarks of questions and answers: whether the signed-in user has saved
 * an item, and the save/unsave toggle, which writes the server's new list
 * into the session user and into the stored snapshot. The question page
 * and the answer card do this alike, differing only in the user field and
 * the toast texts.
 */
module SavedItems {
  import opened Wrappers
  import opened Js
  import opened AuthSlice
  import opened BrowserStorage

  datatype ItemKind = QuestionItem | AnswerItem

  /** The user property holding the saved ids. */
  function SavedField(kind: ItemKind): string {
    match kind
    case QuestionItem => "savedQuestions"
    case AnswerItem => "savedAnswers"
  }

  function RemovedToast(kind: ItemKind): string {
    match kind
    case QuestionItem => "Soru kaydedilenlerden kaldırıldı"
    case AnswerItem => "Cevap kaydedilenlerden kaldırıldı"
  }

  function AddedToast(kind: ItemKind): string {
    match kind
    case QuestionItem => "Soru kaydedildi"
    case AnswerItem => "Cevap kaydedildi"
  }

  const NeedLogin := "Kaydetmek için giriş yapmalısın."
  const ToggleFailed := "İşlem başarısız"

  /** `list?.some((x) => x?.toString() === key)`: a missing list holds nothing. */
  predicate ListHas(list: Json, key: Json) {
    list.JArr? && exists i :: 0 <= i < |list.items| && StrictEq(OptToString(list.items[i]), key)
  }

  /** `item._id || item.id` */
  function ItemKey(item: Record): (k: Json)
    ensures Truthy(Get(item, "_id")) ==> k == Get(item, "_id")
    ensures !Truthy(Get(item, "_id")) ==> k == Get(item, "id")
  {
    Or(Get(item, "_id"), Get(item, "id"))
  }

  /** `isQuestionSaved` / `isAnswerSaved` */
  function IsSaved(kind: ItemKind, item: Option<Record>, user: Option<Record>): (saved: bool)
    ensures saved ==> item.Some? && user.Some?
    ensures saved ==> Get(user.value, SavedField(kind)).JArr? && |Get(user.value, SavedField(kind)).items| > 0
  {
    item.Some? && user.Some? && ListHas(Get(user.value, SavedField(kind)), OptToString(ItemKey(item.value)))
  }

  /** A list of id strings: each entry is a string. */
  predicate IdStrings(list: seq<Json>) {
    forall i :: 0 <= i < |list| ==> list[i].JStr?
  }

  /** For string ids, an item is saved exactly when its id is in the user's list. */
  lemma IsSavedIffListed(kind: ItemKind, item: Record, user: Record, id: string, list: seq<Json>)
    requires ItemKey(item) == JStr(id) && Get(user, SavedField(kind)) == JArr(list) && IdStrings(list)
    ensures IsSaved(kind, Some(item), Some(user)) <==> JStr(id) in list
  {
    if JStr(id) in list {
      var i :| 0 <= i < |list| && list[i] == JStr(id);
      assert StrictEq(OptToString(list[i]), JStr(id));
    }
  }

  /** A user without the field has saved nothing. */
  lemma NothingSavedWithoutList(kind: ItemKind, item: Record, user: Record)
    requires SavedField(kind) !in user
    ensures !IsSaved(kind, Some(item), Some(user))
  {
  }

  datatype SaveRequest = Save(id: Json) | Unsave(id: Json)
  datatype SaveReply = SavedList(data: Json) | SaveFailed(serverMessage: Option<string>)

  /** The request a click sends: unsave what is saved, save what is not. */
  function ToggleRequest(kind: ItemKind, item: Record, user: Record): (r: SaveRequest)
    ensures r.Unsave? <==> IsSaved(kind, Some(item), Some(user))
    ensures r.id == ItemKey(item)
  {
    if IsSaved(kind, Some(item), Some(user)) then Unsave(ItemKey(item)) else Save(ItemKey(item))
  }

  /** `{...user, [field]: data}`: only that one property changes. */
  function WithSaved(user: Record, field: string, data: Json): (u: Record)
    ensures u.Keys == user.Keys + {field}
    ensures u[field] == data
    ensures forall k :: k in user && k != field ==> u[k] == user[k]
  {
    Spread(user, map[field := data])
  }

  /** After the store takes the server's list, the bookmark shows exactly what that list says. */
  lemma ToggleReflected(kind: ItemKind, item: Record, user: Record, s: AuthState, id: string, list: seq<Json>)
    requires ItemKey(item) == JStr(id) && IdStrings(list)
    ensures var s' := s.SetCredentials(Some(WithSaved(user, SavedField(kind), JArr(list))));
      IsSaved(kind, Some(item), s'.user) <==> JStr(id) in list
  {
    var s' := s.SetCredentials(Some(WithSaved(user, SavedField(kind), JArr(list))));
    IsSavedIffListed(kind, item, s'.user.value, id, list);
  }

  /**
   * The toggle handler: sign-in required; otherwise the request, then on a
   * reply carrying data the user is updated in the store and in storage.
   * `user` is the signed-in user as the component last rendered it.
   */
  method ToggleSave(kind: ItemKind, auth: AuthStore, storage: LocalStorage, item: Record, user: Option<Record>,
                    reply: SaveReply)
    returns (request: Option<SaveRequest>, toast: string)
    modifies auth, storage
    ensures user.None? ==> request.None? && toast == NeedLogin
    ensures user.Some? ==> request == Some(ToggleRequest(kind, item, user.value))
    ensures user.Some? && reply.SavedList? && Truthy(reply.data) ==>
              var updated := WithSaved(user.value, SavedField(kind), reply.data);
              && auth.State() == old(auth.State()).SetCredentials(Some(updated))
              && storage.authUser == Some(Snapshot(updated))
    ensures !(user.Some? && reply.SavedList? && Truthy(reply.data)) ==>
              auth.State() == old(auth.State()) && storage.authUser == old(storage.authUser)
    ensures storage.accessToken == old(storage.accessToken) && storage.legacyToken == old(storage.legacyToken)
    ensures user.Some? && reply.SavedList? ==>
              toast == (if IsSaved(kind, Some(item), user) then RemovedToast(kind) else AddedToast(kind))
    ensures user.Some? && reply.SaveFailed? ==> toast == OrText(reply.serverMessage, ToggleFailed)
  {
    if user.None? {
      return None, NeedLogin;
    }
    var wasSaved := IsSaved(kind, Some(item), user);
    request := Some(ToggleRequest(kind, item, user.value));
    match reply
    case SaveFailed(serverMessage) =>
      toast := OrText(serverMessage, ToggleFailed);
    case SavedList(data) =>
      if Truthy(data) {
        var updated := WithSaved(user.value, SavedField(kind), data);
        auth.SetCredentials(Some(updated));
        storage.authUser := Some(Snapshot(updated));
      }
      toast := if wasSaved then RemovedToast(kind) else AddedToast(kind);
  }
}
