/**
 * The profile page: which user it shows and whether the viewer owns it,
 * the profile-image upload, the profile edit form, and the body of the
 * question editor. The editor's attachment state is
 * `Attachments.QuestionEdit`; image URLs are `FileUrls.ProfileImageUrl`.
 */
module Profile {
  import opened Wrappers
  import opened Strings
  import opened Js
  import opened AuthSlice
  import opened Attachments
  import TagInput

  /** `profile`: the signed-in user, unless the session is anonymous; fetched profile data is never used. */
  function ProfileView(status: Status, currentUser: Option<Record>, fetched: Option<Record>): (p: Option<Record>)
    ensures p.Some? <==> status != Anonymous && currentUser.Some?
    ensures p.Some? ==> p == currentUser
  {
    if status == Anonymous || currentUser.None? then None else currentUser
  }

  /** Whatever the profile request returns, the page shows the same profile. */
  lemma ProfileIgnoresFetchedData(status: Status, currentUser: Option<Record>, a: Option<Record>, b: Option<Record>)
    ensures ProfileView(status, currentUser, a) == ProfileView(status, currentUser, b)
  {
  }

  /** `isOwner`: a profile, and either no id in the route or the route id is one of the profile's ids. */
  function IsOwner(profile: Option<Record>, routeId: Option<string>): (owns: bool)
    ensures owns ==> profile.Some?
    ensures profile.Some? && (routeId.None? || routeId == Some("")) ==> owns
    ensures profile.Some? && routeId.Some? && routeId.value != "" ==>
              (owns <==> JStr(routeId.value) in {Get(profile.value, "_id"), Get(profile.value, "id")})
  {
    profile.Some? &&
    (|| (routeId.Some? && StrictEq(Get(profile.value, "_id"), JStr(routeId.value)))
     || (routeId.Some? && StrictEq(Get(profile.value, "id"), JStr(routeId.value)))
     || routeId.None? || routeId.value == "")
  }

  /** With no route id (the component's `!id` branch) the viewer owns the page; with a non-empty id, only when the id is theirs. */
  lemma OwnerOnlyOfOwnId(profile: Record, routeId: string)
    ensures IsOwner(Some(profile), None)
    ensures routeId != "" ==>
              (IsOwner(Some(profile), Some(routeId)) <==> JStr(routeId) in {Get(profile, "_id"), Get(profile, "id")})
  {
  }

  /** The redirect effect: an anonymous session that is not being checked leaves for the home page. */
  function RedirectTarget(status: Status, isFetching: bool): (nav: Option<string>)
    ensures nav.Some? <==> status == Anonymous && !isFetching
    ensures nav.Some? ==> nav.value == "/"
  {
    if status == Anonymous && !isFetching then Some("/") else None
  }

  /** The user handed to `setCredentials` after an update: the new data with the session's token. */
  function WithSessionToken(updated: Record, currentUser: Option<Record>): (u: Record)
    ensures u.Keys == updated.Keys + {"access_token"}
    ensures u["access_token"] == GetOpt(currentUser, "access_token")
    ensures forall k :: k in updated && k != "access_token" ==> u[k] == updated[k]
  {
    Spread(updated, map["access_token" := GetOpt(currentUser, "access_token")])
  }

  /** An update keeps the session's token in the store. */
  lemma UpdateKeepsToken(s: AuthState, updated: Record)
    requires s.user.Some? && Truthy(Get(s.user.value, "access_token"))
    ensures var s' := s.SetCredentials(Some(WithSessionToken(updated, s.user)));
      s'.user.Some? && Get(s'.user.value, "access_token") == Get(s.user.value, "access_token")
  {
  }

  const ImageTooLarge := "Lütfen 5MB'den küçük bir görsel yükleyin."
  const ImageUpdated := "Profil fotoğrafı güncellendi!"
  const ImageFailed := "Görsel yüklenemedi"

  datatype UploadReply = Uploaded(data: Option<Record>) | UploadFailed(serverMessage: Option<string>)

  /**
   * `handleImageChange`: no file does nothing, a file above 5 MB is refused
   * before any request, otherwise the upload's user data replaces the
   * session user's fields.
   */
  method ChangeProfileImage(auth: AuthStore, file: Option<PickedFile>, currentUser: Option<Record>, reply: UploadReply)
    returns (sent: Option<PickedFile>, toast: Option<string>)
    modifies auth
    ensures sent.Some? <==> file.Some? && SmallEnough(file.value)
    ensures sent.Some? ==> sent == file
    ensures file.None? ==> toast.None?
    ensures file.Some? && !SmallEnough(file.value) ==> toast == Some(ImageTooLarge)
    ensures sent.Some? && reply.Uploaded? ==>
              auth.State() == old(auth.State()).SetCredentials(Some(WithSessionToken(reply.data.GetOr(map[]), currentUser)))
              && toast == Some(ImageUpdated)
    ensures !(sent.Some? && reply.Uploaded?) ==> auth.State() == old(auth.State())
    ensures sent.Some? && reply.UploadFailed? ==> toast == Some(OrText(reply.serverMessage, ImageFailed))
  {
    if file.None? {
      return None, None;
    }
    if file.value.size > MaxFileBytes {
      return None, Some(ImageTooLarge);
    }
    sent := file;
    match reply
    case UploadFailed(serverMessage) =>
      toast := Some(OrText(serverMessage, ImageFailed));
    case Uploaded(data) =>
      auth.SetCredentials(Some(WithSessionToken(data.GetOr(map[]), currentUser)));
      toast := Some(ImageUpdated);
  }

  /** The edited user when the server returns no data: the shown profile with the submitted fields over it. */
  function UpdatedUser(profile: Record, payload: Record, data: Option<Record>): (u: Record)
    ensures data.Some? ==> u == data.value
    ensures data.None? ==> u == Spread(profile, payload)
  {
    data.GetOr(Spread(profile, payload))
  }

  /** Without server data, every submitted defined field reaches the session user. */
  lemma FallbackKeepsEdits(s: AuthState, profile: Record, values: Record, currentUser: Option<Record>)
    ensures var u := s.SetCredentials(Some(WithSessionToken(UpdatedUser(profile, DropUndefined(values), None), currentUser))).user.value;
      forall k :: k in values && values[k] != JUndef && k != "access_token" ==> u[k] == values[k]
  {
  }

  const ProfileUpdated := "Profil bilgilerin güncellendi!"
  const ProfileUpdateFailed := "Güncelleme başarısız"

  datatype EditReply = Updated(data: Option<Record>) | EditFailed(serverMessage: Option<string>)

  /** `onSubmit` of the profile form: a failure leaves the session user as it was. */
  method SubmitProfileEdit(auth: AuthStore, profile: Record, currentUser: Option<Record>, values: Record, reply: EditReply)
    returns (sent: Record, toast: string)
    modifies auth
    ensures sent == DropUndefined(values)
    ensures forall k :: k in sent ==> sent[k] != JUndef
    ensures reply.EditFailed? ==>
              auth.State() == old(auth.State()) && toast == OrText(reply.serverMessage, ProfileUpdateFailed)
    ensures reply.Updated? ==>
              auth.State() == old(auth.State()).SetCredentials(Some(WithSessionToken(UpdatedUser(profile, sent, reply.data), currentUser)))
              && toast == ProfileUpdated
  {
    sent := DropUndefined(values);
    match reply
    case EditFailed(serverMessage) =>
      toast := OrText(serverMessage, ProfileUpdateFailed);
    case Updated(data) =>
      auth.SetCredentials(Some(WithSessionToken(UpdatedUser(profile, sent, data), currentUser)));
      toast := ProfileUpdated;
  }

  /** The question editor's body: trimmed title and content, tags, new files, and the removal list when not empty. */
  function EditQuestionPayload(title: string, content: string, rawTags: string, files: seq<PickedFile>, toRemove: seq<string>): (fd: FormData)
    ensures |fd| == 2 + |TagInput.EditTags(rawTags)| + |files| + (if toRemove != [] then 1 else 0)
    ensures fd[0] == ("title", Text(Trim(title))) && fd[1] == ("content", Text(Trim(content)))
    ensures toRemove != [] ==> fd[|fd| - 1] == ("filesToRemove", JsonList(toRemove))
  {
    [("title", Text(Trim(title))), ("content", Text(Trim(content)))]
      + TextEntries("tags", TagInput.EditTags(rawTags))
      + FileEntries("attachments", files)
      + (if toRemove != [] then [("filesToRemove", JsonList(toRemove))] else [])
  }

  /** The editor's append sequence. */
  method BuildEditQuestionPayload(title: string, content: string, rawTags: string, files: seq<PickedFile>, toRemove: seq<string>)
    returns (fd: FormData)
    ensures fd == EditQuestionPayload(title, content, rawTags, files, toRemove)
  {
    fd := [("title", Text(Trim(title))), ("content", Text(Trim(content)))];
    if rawTags != "" && Trim(rawTags) != "" {
      fd := AppendTexts(fd, "tags", TagInput.EditTags(rawTags));
    } else {
      assert TagInput.EditTags(rawTags) == [];
      assert fd + TextEntries("tags", []) == fd;
    }
    fd := AppendFiles(fd, "attachments", files);
    if |toRemove| > 0 {
      fd := fd + [("filesToRemove", JsonList(toRemove))];
    }
  }

  /** The title and content entries hold nothing under any other key. */
  lemma HeadHoldsOnlyTitleAndContent(title: string, content: string, key: string)
    requires key != "title" && key != "content"
    ensures ValuesUnder([("title", Text(Trim(title))), ("content", Text(Trim(content)))], key) == []
  {
    var head: FormData := [("title", Text(Trim(title))), ("content", Text(Trim(content)))];
    assert head[..1] == [("title", Text(Trim(title)))];
    assert head[..1][..0] == [];
  }

  /** The removal list reaches the server once, and only when something is removed; tags parse as on the ask page. */
  lemma EditQuestionPayloadFields(title: string, content: string, rawTags: string, files: seq<PickedFile>, toRemove: seq<string>)
    ensures var p := EditQuestionPayload(title, content, rawTags, files, toRemove);
      && ValuesUnder(p, "filesToRemove") == (if toRemove != [] then [JsonList(toRemove)] else [])
      && ValuesUnder(p, "tags") == Texts(TagInput.ParseTags(rawTags))
      && ValuesUnder(p, "attachments") == Uploads(files)
  {
    var head: FormData := [("title", Text(Trim(title))), ("content", Text(Trim(content)))];
    var tags := TagInput.EditTags(rawTags);
    TagInput.EditTagsAgree(rawTags);
    var t := TextEntries("tags", tags);
    var f := FileEntries("attachments", files);
    var tail: FormData := if toRemove != [] then [("filesToRemove", JsonList(toRemove))] else [];
    assert tail == [] || tail[..0] == [];
    ConcatFour(head, t, f, tail, "filesToRemove");
    ConcatFour(head, t, f, tail, "tags");
    ConcatFour(head, t, f, tail, "attachments");
    HeadHoldsOnlyTitleAndContent(title, content, "filesToRemove");
    HeadHoldsOnlyTitleAndContent(title, content, "tags");
    HeadHoldsOnlyTitleAndContent(title, content, "attachments");
    TextEntriesReadBack("tags", tags, "filesToRemove");
    TextEntriesReadBack("tags", tags, "attachments");
    FileEntriesReadBack("attachments", files, "filesToRemove");
    FileEntriesReadBack("attachments", files, "tags");
  }

  const QuestionUpdated := "Soru güncellendi!"
  const QuestionUpdateFailed := "Soru güncellenemedi"

  datatype EditQuestionReply = QuestionSaved | QuestionRejected(serverMessage: Option<string>)

  /**
   * The editor's submit handler: the body is sent with the edited
   * question's id; a success closes the editor, emptying both lists.
   * `closed` reports `setEditingQuestionId(null)`.
   */
  method SubmitQuestionEdit(edit: QuestionEdit, questionId: string, title: string, content: string, rawTags: string,
                            reply: EditQuestionReply)
    returns (sent: (string, FormData), toast: string, closed: bool)
    modifies edit
    ensures sent == (questionId, EditQuestionPayload(title, content, rawTags, old(edit.selected), old(edit.toRemove)))
    ensures reply.QuestionSaved? ==> closed && toast == QuestionUpdated && edit.selected == [] && edit.toRemove == []
    ensures reply.QuestionRejected? ==>
              !closed && toast == OrText(reply.serverMessage, QuestionUpdateFailed)
              && edit.selected == old(edit.selected) && edit.toRemove == old(edit.toRemove)
  {
    var body := BuildEditQuestionPayload(title, content, rawTags, edit.selected, edit.toRemove);
    sent := (questionId, body);
    match reply
    case QuestionRejected(serverMessage) =>
      toast, closed := OrText(serverMessage, QuestionUpdateFailed), false;
    case QuestionSaved =>
      edit.Reset();
      toast, closed := QuestionUpdated, true;
  }
}
