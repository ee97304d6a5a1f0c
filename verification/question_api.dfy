/**
 * The question endpoints: their URLs and the cache tags each query
 * provides and each mutation invalidates. Every tag has type "Question",
 * so a tag is its id. The request cache files a provided tag under its id
 * used as an object property name, that is under the id's string form, and
 * an invalidated tag refetches the queries filed under the same string.
 */
module QuestionApi {
  import opened Wrappers
  import opened Strings
  import opened Js

  /** `{ type: "Question", id }` */
  datatype Tag = Tag(id: Json)

  const ListTag := Tag(JStr("LIST"))
  const MyListTag := Tag(JStr("MY_LIST"))

  /** Two tags meet in the cache when their ids have the same string form. */
  predicate Matches(invalidated: Tag, provided: Tag) {
    Display(invalidated.id) == Display(provided.id)
  }

  /** A mutation refetches a query when one of its invalidated tags meets one of the query's provided tags. */
  predicate Refetches(invalidates: seq<Tag>, provided: seq<Tag>) {
    exists i, j :: 0 <= i < |invalidates| && 0 <= j < |provided| && Matches(invalidates[i], provided[j])
  }

  // ---------------------------------------------------------------- queries

  const QuestionsUrl := "/questions"
  const MyQuestionsUrl := "/questions/my-questions"

  /** `getQuestionById`'s URL. */
  function QuestionUrl(id: string): (url: string)
    ensures StartsWith(url, "/questions/") && url[11..] == id
  {
    "/questions/" + id
  }

  /** A list response: its `data` array, when there is one. */
  datatype ListResult = ListResult(data: Option<seq<Json>>)

  /** `question._id` of one list entry. */
  function EntryId(entry: Json): (id: Json)
    ensures !entry.JObj? ==> id == JUndef
  {
    if entry.JObj? then Get(entry.fields, "_id") else JUndef
  }

  /** The tag of each entry, in order. */
  function EntryTags(entries: seq<Json>): (tags: seq<Tag>)
    ensures |tags| == |entries|
    ensures forall i :: 0 <= i < |entries| ==> tags[i] == Tag(EntryId(entries[i]))
  {
    seq(|entries|, i requires 0 <= i < |entries| => Tag(EntryId(entries[i])))
  }

  /**
   * `result?.data?.map((q) => tag(q._id)) || [fallback]`, as written: the
   * fallback only when there is no data; an empty page provides nothing.
   */
  function ListProvides(result: Option<ListResult>, fallback: Tag): (tags: seq<Tag>)
    ensures (result.None? || result.value.data.None?) ==> tags == [fallback]
    ensures result.Some? && result.value.data.Some? ==> tags == EntryTags(result.value.data.value)
  {
    if result.Some? && result.value.data.Some? then EntryTags(result.value.data.value) else [fallback]
  }

  /** An empty page provides no tag at all, so no mutation ever refetches it. */
  lemma EmptyPageNeverRefetched(fallback: Tag, invalidates: seq<Tag>)
    ensures ListProvides(Some(ListResult(Some([]))), fallback) == []
    ensures !Refetches(invalidates, ListProvides(Some(ListResult(Some([]))), fallback))
  {
  }

  /** `getQuestionById` provides exactly its argument's tag. */
  function QuestionProvides(id: string): (tags: seq<Tag>)
    ensures tags == [Tag(JStr(id))]
  {
    [Tag(JStr(id))]
  }

  // -------------------------------------------------------------- mutations

  datatype Mutation =
    | Ask
    | Like(id: string)
    | UndoLike(id: string)
    | Edit(id: string)
    | Delete(id: string)
    | Solve(id: string)
    | Unsolve(id: string)

  function MutationUrl(m: Mutation): (url: string)
    ensures m.Ask? ==> url == "/questions/ask"
    ensures !m.Ask? ==> StartsWith(url, "/questions/" + m.id)
    ensures m.Like? ==> url == "/questions/" + m.id + "/like"
    ensures m.UndoLike? ==> url == "/questions/" + m.id + "/undo_like"
    ensures m.Edit? ==> url == "/questions/" + m.id + "/edit"
    ensures m.Delete? ==> url == "/questions/" + m.id
    ensures m.Solve? ==> url == "/questions/" + m.id + "/solve"
    ensures m.Unsolve? ==> url == "/questions/" + m.id + "/unsolve"
  {
    match m
    case Ask => "/questions/ask"
    case Like(id) => "/questions/" + id + "/like"
    case UndoLike(id) => "/questions/" + id + "/undo_like"
    case Edit(id) => "/questions/" + id + "/edit"
    case Delete(id) => "/questions/" + id
    case Solve(id) => "/questions/" + id + "/solve"
    case Unsolve(id) => "/questions/" + id + "/unsolve"
  }

  /** What the page hands the mutation: the id, except for the editor's `{ id, formData }` object. */
  function Argument(m: Mutation): (arg: Json)
    requires !m.Ask?
    ensures !m.Edit? ==> arg == JStr(m.id)
    ensures m.Edit? ==> arg.JObj? && Get(arg.fields, "id") == JStr(m.id)
  {
    match m
    case Edit(id) => JObj(map["id" := JStr(id), "formData" := JObj(map[])])
    case Like(id) => JStr(id)
    case UndoLike(id) => JStr(id)
    case Delete(id) => JStr(id)
    case Solve(id) => JStr(id)
    case Unsolve(id) => JStr(id)
  }

  /** `invalidatesTags` as written: the mutation's argument is the id of its own tag. */
  function InvalidatesAsWritten(m: Mutation): (tags: seq<Tag>)
    ensures m.Ask? ==> tags == [ListTag]
    ensures (m.Like? || m.UndoLike?) ==> tags == [Tag(Argument(m)), ListTag]
    ensures !m.Ask? && !m.Like? && !m.UndoLike? ==> tags == [Tag(Argument(m)), ListTag, MyListTag]
  {
    match m
    case Ask => [ListTag]
    case Like(_) => [Tag(Argument(m)), ListTag]
    case UndoLike(_) => [Tag(Argument(m)), ListTag]
    case _ => [Tag(Argument(m)), ListTag, MyListTag]
  }

  /** An edit never refetches the edited question: its tag id is an object, filed as "[object Object]". */
  lemma EditMissesItsQuestion(id: string)
    requires id !in {"[object Object]", "LIST", "MY_LIST"}
    ensures !Refetches(InvalidatesAsWritten(Edit(id)), QuestionProvides(id))
  {
    var inv := InvalidatesAsWritten(Edit(id));
    forall i, j | 0 <= i < |inv| && 0 <= j < 1
      ensures !Matches(inv[i], QuestionProvides(id)[j])
    {
      if i == 0 {
        assert Display(inv[0].id) == "[object Object]";
      }
      assert Display(QuestionProvides(id)[j].id) == id;
    }
  }

  /** `invalidatesTags` with the edit's tag taken from `id`, as for every other mutation. */
  function Invalidates(m: Mutation): (tags: seq<Tag>)
    ensures m.Ask? ==> tags == [ListTag]
    ensures (m.Like? || m.UndoLike?) ==> tags == [Tag(JStr(m.id)), ListTag]
    ensures !m.Ask? && !m.Like? && !m.UndoLike? ==> tags == [Tag(JStr(m.id)), ListTag, MyListTag]
  {
    match m
    case Ask => [ListTag]
    case Like(id) => [Tag(JStr(id)), ListTag]
    case UndoLike(id) => [Tag(JStr(id)), ListTag]
    case _ => [Tag(JStr(m.id)), ListTag, MyListTag]
  }

  /** The correction changes the edit alone, which then invalidates what a delete does. */
  lemma CorrectionOnlyForEdit(m: Mutation)
    ensures !m.Edit? ==> Invalidates(m) == InvalidatesAsWritten(m)
    ensures m.Edit? ==> Invalidates(m) == Invalidates(Delete(m.id))
  {
  }

  /** Every mutation on a question refetches that question's page. */
  lemma MutationRefetchesItsQuestion(m: Mutation)
    requires !m.Ask?
    ensures Refetches(Invalidates(m), QuestionProvides(m.id))
  {
    assert Matches(Invalidates(m)[0], QuestionProvides(m.id)[0]);
  }

  /** A loaded list that shows the question is refetched by every mutation on it. */
  lemma MutationRefetchesListsShowingIt(m: Mutation, entries: seq<Json>, k: nat, fallback: Tag)
    requires !m.Ask? && k < |entries| && EntryId(entries[k]) == JStr(m.id)
    ensures Refetches(Invalidates(m), ListProvides(Some(ListResult(Some(entries))), fallback))
  {
    assert Matches(Invalidates(m)[0], ListProvides(Some(ListResult(Some(entries))), fallback)[k]);
  }

  /** Entries whose `_id`s are strings other than "LIST". */
  predicate PlainIds(entries: seq<Json>) {
    forall i :: 0 <= i < |entries| ==> EntryId(entries[i]).JStr? && EntryId(entries[i]) != JStr("LIST")
  }

  /** As written, posting a question leaves every loaded question list as it was. */
  lemma AskMissesLoadedList(entries: seq<Json>)
    requires PlainIds(entries)
    ensures !Refetches(Invalidates(Ask), ListProvides(Some(ListResult(Some(entries))), ListTag))
  {
    var provided := ListProvides(Some(ListResult(Some(entries))), ListTag);
    forall j | 0 <= j < |provided|
      ensures !Matches(ListTag, provided[j])
    {
      assert provided[j].id == EntryId(entries[j]);
    }
  }

  /** The lists' tags as evidently intended: one per entry, and the fallback tag always. */
  function ListProvidesCorrected(result: Option<ListResult>, fallback: Tag): (tags: seq<Tag>)
    ensures |tags| >= 1 && tags[|tags| - 1] == fallback
    ensures tags[..|tags| - 1] == (if result.Some? && result.value.data.Some? then ListProvides(result, fallback) else [])
  {
    (if result.Some? && result.value.data.Some? then EntryTags(result.value.data.value) else []) + [fallback]
  }

  /** With the fallback always provided, posting a question refetches every question list, loaded or not. */
  lemma AskRefetchesEveryList(result: Option<ListResult>)
    ensures Refetches(Invalidates(Ask), ListProvidesCorrected(result, ListTag))
  {
    var provided := ListProvidesCorrected(result, ListTag);
    assert Matches(Invalidates(Ask)[0], provided[|provided| - 1]);
  }
}
