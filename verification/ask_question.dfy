/**
 * The ask-question page: the form schema with its tag transform, the
 * trimmed-length checks of the submit handler, the multipart body it
 * sends and where it goes afterwards.
 */
module AskQuestion {
  import opened Wrappers
  import opened Strings
  import opened Js
  import TagInput
  import opened Attachments

  const TitleMin := 10
  const ContentMin := 20
  const TitleTooShort := "Başlık en az 10 karakter olmalı"
  const ContentTooShort := "İçerik en az 20 karakter olmalı"
  const Created := "Soru başarıyla paylaşıldı!"
  const CreateFailed := "Soru oluşturulamadı"

  /** The schema's length rules, on the text as typed: the fields that fail. */
  function SchemaIssues(title: string, content: string): (issues: seq<string>)
    ensures issues == [] <==> |title| >= TitleMin && |content| >= ContentMin
    ensures "title" in issues <==> |title| < TitleMin
    ensures "content" in issues <==> |content| < ContentMin
  {
    (if |title| < TitleMin then ["title"] else []) + (if |content| < ContentMin then ["content"] else [])
  }

  /** The schema's `tags` transform: a missing or empty field gives no tags. */
  function SchemaTags(raw: Option<string>): (tags: seq<string>)
    ensures (raw.None? || raw.value == "") ==> tags == []
    ensures raw.Some? ==> tags == TagInput.ParseTags(raw.value)
    ensures forall t :: t in tags ==> TagInput.CleanTag(t)
  {
    if raw.Some? && raw.value != "" then
      TagInput.ParsedTagsClean(raw.value);
      TagInput.ParseTags(raw.value)
    else []
  }

  /** The submit handler's own checks, on the trimmed text: the error toast, if any. */
  function SubmitCheck(title: string, content: string): (err: Option<string>)
    ensures err == None <==> |Trim(title)| >= TitleMin && |Trim(content)| >= ContentMin
    ensures err == Some(TitleTooShort) <==> |Trim(title)| < TitleMin
    ensures err == Some(ContentTooShort) <==> |Trim(title)| >= TitleMin && |Trim(content)| < ContentMin
  {
    if |Trim(title)| < TitleMin then Some(TitleTooShort)
    else if |Trim(content)| < ContentMin then Some(ContentTooShort)
    else None
  }

  /** The submit checks are at least as strict as the schema. */
  lemma SubmitCheckImpliesSchema(title: string, content: string)
    requires SubmitCheck(title, content).None?
    ensures SchemaIssues(title, content) == []
  {
  }

  /** A blank title long enough for the schema passes it but is stopped by the submit check. */
  lemma BlankTitlePassesOnlyTheSchema(title: string, content: string)
    requires |title| >= TitleMin && AllWhitespace(title) && |content| >= ContentMin
    ensures SchemaIssues(title, content) == []
    ensures SubmitCheck(title, content) == Some(TitleTooShort)
  {
    TrimEmptyIffAllWhitespace(title);
  }

  /** The body sent to the server: trimmed title and content, one entry per tag, one per file. */
  function QuestionPayload(title: string, content: string, tags: seq<string>, files: seq<PickedFile>): (fd: FormData)
    ensures |fd| == 2 + |tags| + |files|
    ensures fd[0] == ("title", Text(Trim(title))) && fd[1] == ("content", Text(Trim(content)))
    ensures fd[2..2 + |tags|] == TextEntries("tags", tags)
    ensures fd[2 + |tags|..] == FileEntries("attachments", files)
  {
    [("title", Text(Trim(title))), ("content", Text(Trim(content)))]
      + TextEntries("tags", tags) + FileEntries("attachments", files)
  }

  /** What the server reads back from each field of the body. */
  lemma PayloadFields(title: string, content: string, tags: seq<string>, files: seq<PickedFile>)
    ensures var p := QuestionPayload(title, content, tags, files);
      && ValuesUnder(p, "title") == [Text(Trim(title))]
      && ValuesUnder(p, "content") == [Text(Trim(content))]
      && ValuesUnder(p, "tags") == Texts(tags)
      && ValuesUnder(p, "attachments") == Uploads(files)
  {
    PayloadTitle(title, content, tags, files);
    PayloadContent(title, content, tags, files);
    PayloadTags(title, content, tags, files);
    PayloadFiles(title, content, tags, files);
  }

  /** One key of the body: what the title and content entries give, then the tag entries, then the file entries. */
  lemma PayloadUnder(title: string, content: string, tags: seq<string>, files: seq<PickedFile>, key: string)
    ensures ValuesUnder(QuestionPayload(title, content, tags, files), key)
         == ValuesUnder([("title", Text(Trim(title))), ("content", Text(Trim(content)))], key)
            + ValuesUnder(TextEntries("tags", tags), key) + ValuesUnder(FileEntries("attachments", files), key)
  {
    var head: FormData := [("title", Text(Trim(title))), ("content", Text(Trim(content)))];
    ValuesUnderConcat(head + TextEntries("tags", tags), FileEntries("attachments", files), key);
    ValuesUnderConcat(head, TextEntries("tags", tags), key);
  }

  lemma PayloadTitle(title: string, content: string, tags: seq<string>, files: seq<PickedFile>)
    ensures ValuesUnder(QuestionPayload(title, content, tags, files), "title") == [Text(Trim(title))]
  {
    PayloadUnder(title, content, tags, files, "title");
    PairUnder("title", Text(Trim(title)), "content", Text(Trim(content)), "title");
    TextEntriesReadBack("tags", tags, "title");
    FileEntriesReadBack("attachments", files, "title");
  }

  lemma PayloadContent(title: string, content: string, tags: seq<string>, files: seq<PickedFile>)
    ensures ValuesUnder(QuestionPayload(title, content, tags, files), "content") == [Text(Trim(content))]
  {
    PayloadUnder(title, content, tags, files, "content");
    PairUnder("title", Text(Trim(title)), "content", Text(Trim(content)), "content");
    TextEntriesReadBack("tags", tags, "content");
    FileEntriesReadBack("attachments", files, "content");
  }

  lemma PayloadTags(title: string, content: string, tags: seq<string>, files: seq<PickedFile>)
    ensures ValuesUnder(QuestionPayload(title, content, tags, files), "tags") == Texts(tags)
  {
    PayloadUnder(title, content, tags, files, "tags");
    PairUnder("title", Text(Trim(title)), "content", Text(Trim(content)), "tags");
    TextEntriesReadBack("tags", tags, "title");  // reads "tags" back; "title" is just some other key
    FileEntriesReadBack("attachments", files, "tags");
  }

  lemma PayloadFiles(title: string, content: string, tags: seq<string>, files: seq<PickedFile>)
    ensures ValuesUnder(QuestionPayload(title, content, tags, files), "attachments") == Uploads(files)
  {
    PayloadUnder(title, content, tags, files, "attachments");
    PairUnder("title", Text(Trim(title)), "content", Text(Trim(content)), "attachments");
    TextEntriesReadBack("tags", tags, "attachments");
    FileEntriesReadBack("attachments", files, "title");  // reads "attachments" back; "title" is just some other key
  }

  /** The append sequence of the submit handler. */
  method BuildQuestionPayload(title: string, content: string, tags: seq<string>, files: seq<PickedFile>)
    returns (fd: FormData)
    ensures fd == QuestionPayload(title, content, tags, files)
  {
    fd := [("title", Text(Trim(title))), ("content", Text(Trim(content)))];
    fd := AppendTexts(fd, "tags", tags);
    fd := AppendFiles(fd, "attachments", files);
  }

  /** Where the page goes after a successful post: the new question, or home without an id. */
  function CreatedTarget(questionId: Json): (path: string)
    ensures path == "/" <==> !Truthy(questionId)
    ensures Truthy(questionId) ==> StartsWith(path, "/questions/") && path[11..] == Display(questionId)
  {
    if Truthy(questionId) then "/questions/" + Display(questionId) else "/"
  }

  /** The server's answer to the post: the new question's `_id` (possibly missing), or a failure. */
  datatype Reply = CreatedWith(questionId: Json) | Failed(serverMessage: Option<string>)

  /**
   * `onSubmit`, called once the schema passed: check, build and send the
   * body, then reset the attachments and navigate, or report the failure.
   */
  method Submit(title: string, content: string, rawTags: Option<string>, selection: FileSelection, reply: Reply)
    returns (sent: Option<FormData>, toast: string, nav: Option<string>)
    requires SchemaIssues(title, content) == []
    modifies selection
    ensures SubmitCheck(title, content).Some? ==>
              sent.None? && toast == SubmitCheck(title, content).value && nav.None?
              && selection.files == old(selection.files)
    ensures SubmitCheck(title, content).None? ==>
              sent == Some(QuestionPayload(title, content, SchemaTags(rawTags), old(selection.files)))
    ensures SubmitCheck(title, content).None? && reply.CreatedWith? ==>
              toast == Created && nav == Some(CreatedTarget(reply.questionId)) && selection.files == []
    ensures SubmitCheck(title, content).None? && reply.Failed? ==>
              toast == OrText(reply.serverMessage, CreateFailed) && nav.None?
              && selection.files == old(selection.files)
  {
    var err := SubmitCheck(title, content);
    if err.Some? {
      return None, err.value, None;
    }
    var body := BuildQuestionPayload(title, content, SchemaTags(rawTags), selection.files);
    sent := Some(body);
    match reply
    case Failed(serverMessage) =>
      toast, nav := OrText(serverMessage, CreateFailed), None;
    case CreatedWith(questionId) =>
      toast := Created;
      selection.Clear();
      nav := Some(CreatedTarget(questionId));
  }
}
