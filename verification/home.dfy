/**
 * The home feed: the statistics derived from the loaded questions (tag
 * counts, contributor table, answer and like totals), the hero figures,
 * and the search / tag / sort controls that build the feed's query.
 */
module Home {
  import opened Wrappers
  import opened Js
  import opened StableSort
  import Strings

  /** The poster as populated in a question: `_id`, `id`, name, department, `reputation || 0`. */
  datatype Author = Author(oid: Option<string>, id: Option<string>, name: Json, department: Json, reputation: int)

  /**
   * The fields of a question the statistics read. A missing `answerCount`
   * or `likeCount` is 0; `answersLength` and `likesLength` are the lengths
   * of the `answers` and `likes` arrays when present.
   */
  datatype FeedQuestion = FeedQuestion(
    tags: seq<string>,
    answerCount: int, answersLength: Option<nat>,
    likeCount: int, likesLength: Option<nat>,
    author: Option<Author>)

  /** `question.answerCount || question.answers?.length || 0` */
  function AnswerCount(q: FeedQuestion): (n: int)
    ensures q.answerCount != 0 ==> n == q.answerCount
    ensures q.answerCount == 0 ==> n == q.answersLength.GetOr(0)
  {
    if q.answerCount != 0 then q.answerCount else q.answersLength.GetOr(0)
  }

  /** `question.likeCount || question.likes?.length || 0` */
  function LikeTotal(q: FeedQuestion): (n: int)
    ensures q.likeCount != 0 ==> n == q.likeCount
    ensures q.likeCount == 0 ==> n == q.likesLength.GetOr(0)
  {
    if q.likeCount != 0 then q.likeCount else q.likesLength.GetOr(0)
  }

  /** `question.user?._id || question.user?.id` */
  function ContributorId(q: FeedQuestion): (id: Option<string>)
    ensures id.Some? ==> q.author.Some? && id.value != ""
    ensures id.Some? <==> q.author.Some? && (NonEmpty(q.author.value.oid).Some? || NonEmpty(q.author.value.id).Some?)
    ensures id.Some? && NonEmpty(q.author.value.oid).Some? ==> id == q.author.value.oid
    ensures q.author.Some? && NonEmpty(q.author.value.oid).None? ==> id == NonEmpty(q.author.value.id)
  {
    match q.author
    case None => None
    case Some(a) => if NonEmpty(a.oid).Some? then a.oid else NonEmpty(a.id)
  }

  // ----- Totals -----

  function SumAnswers(qs: seq<FeedQuestion>): int {
    if qs == [] then 0 else SumAnswers(qs[..|qs| - 1]) + AnswerCount(qs[|qs| - 1])
  }

  function SumLikes(qs: seq<FeedQuestion>): int {
    if qs == [] then 0 else SumLikes(qs[..|qs| - 1]) + LikeTotal(qs[|qs| - 1])
  }

  // ----- Tag counts -----

  /** Every tag of every question, in feed order. */
  function AllTags(qs: seq<FeedQuestion>): seq<string> {
    if qs == [] then [] else AllTags(qs[..|qs| - 1]) + qs[|qs| - 1].tags
  }

  function Occurrences(s: seq<string>, t: string): nat {
    if s == [] then 0 else Occurrences(s[..|s| - 1], t) + (if s[|s| - 1] == t then 1 else 0)
  }

  /** The `tagCounts` object: its keys in insertion order, and the counts. */
  datatype Tally = Tally(order: seq<string>, counts: map<string, nat>)
  {
    ghost predicate Valid() {
      && (forall t :: t in order <==> t in counts)
      && (forall i, j :: 0 <= i < j < |order| ==> order[i] != order[j])
    }
  }

  /** `tagCounts[tag] = (tagCounts[tag] || 0) + 1` */
  function CountTag(t: Tally, tag: string): Tally {
    if tag in t.counts then Tally(t.order, t.counts[tag := t.counts[tag] + 1])
    else Tally(t.order + [tag], t.counts[tag := 1])
  }

  function TallyOf(s: seq<string>): (t: Tally)
    ensures t.Valid()
    ensures |t.order| <= |s|
  {
    if s == [] then Tally([], map[]) else CountTag(TallyOf(s[..|s| - 1]), s[|s| - 1])
  }

  lemma {:induction false} AbsentNeverOccurs(s: seq<string>, t: string)
    requires t !in s
    ensures Occurrences(s, t) == 0
  {
    if s != [] {
      assert s[..|s| - 1] <= s;
      AbsentNeverOccurs(s[..|s| - 1], t);
    }
  }

  /** Counting one more tag is one `CountTag` step. */
  lemma TallyOfSnoc(s: seq<string>, x: string)
    ensures TallyOf(s + [x]) == CountTag(TallyOf(s), x)
  {
    assert (s + [x])[..|s|] == s;
  }

  /** The tally counts every tag exactly as often as it occurs and lists each tag once. */
  lemma {:induction false} TallyOfCorrect(s: seq<string>)
    ensures TallyOf(s).Valid()
    ensures forall t :: t in TallyOf(s).counts <==> t in s
    ensures forall t :: t in TallyOf(s).counts ==> TallyOf(s).counts[t] == Occurrences(s, t)
  {
    if s != [] {
      var p := s[..|s| - 1];
      TallyOfCorrect(p);
      assert s == p + [s[|s| - 1]];
      forall t
        ensures t in TallyOf(s).counts <==> t in s
        ensures t in TallyOf(s).counts ==> TallyOf(s).counts[t] == Occurrences(s, t)
      {
        assert t in s <==> t in p || t == s[|s| - 1];
        assert Occurrences(s, t) == Occurrences(p, t) + (if s[|s| - 1] == t then 1 else 0);
        if t !in p {
          AbsentNeverOccurs(p, t);
        }
      }
    }
  }

  datatype TagCount = TagCount(name: string, count: nat)

  /** Decimal digits only. */
  predicate AllDigits(k: string) {
    k == [] || (Strings.IsDigit(k[|k| - 1]) && AllDigits(k[..|k| - 1]))
  }

  /** The value of a string of decimal digits. */
  function DecimalValue(k: string): nat
    requires AllDigits(k)
  {
    if k == [] then 0 else DecimalValue(k[..|k| - 1]) * 10 + (k[|k| - 1] as int - '0' as int)
  }

  /**
   * A property name that is an array index: "0", or decimal digits without
   * a leading zero, with a value below 2^32 - 1.
   */
  predicate IsArrayIndex(k: string) {
    k != [] && AllDigits(k) && (k[0] != '0' || |k| == 1) && DecimalValue(k) < 0xFFFF_FFFF
  }

  /** An array index's value, negated, so that a descending sort puts the smallest first. */
  function IndexRank(k: string): (int, int) {
    if IsArrayIndex(k) then (0 - DecimalValue(k), 0) else (0, 0)
  }

  /** The keys, in order, that are array indices (`index`) or that are not. */
  function KeysWhere(keys: seq<string>, index: bool): (r: seq<string>)
    ensures |r| <= |keys|
  {
    if keys == [] then []
    else KeysWhere(keys[..|keys| - 1], index) + (if IsArrayIndex(keys[|keys| - 1]) == index then [keys[|keys| - 1]] else [])
  }

  /** A key is kept exactly when it is one of the keys and its index-ness matches. */
  lemma {:induction false} KeysWhereMembers(keys: seq<string>, index: bool)
    ensures forall k :: k in KeysWhere(keys, index) <==> k in keys && IsArrayIndex(k) == index
  {
    if keys != [] {
      var init, last := keys[..|keys| - 1], keys[|keys| - 1];
      KeysWhereMembers(init, index);
      assert keys == init + [last];
    }
  }

  /** Every key goes to exactly one of the two parts. */
  lemma {:induction false} KeysWhereSplit(keys: seq<string>)
    ensures multiset(KeysWhere(keys, true)) + multiset(KeysWhere(keys, false)) == multiset(keys)
    ensures |KeysWhere(keys, true)| + |KeysWhere(keys, false)| == |keys|
  {
    if keys != [] {
      var init, last := keys[..|keys| - 1], keys[|keys| - 1];
      KeysWhereSplit(init);
      assert keys == init + [last];
      if IsArrayIndex(last) {
        assert KeysWhere(keys, true) == KeysWhere(init, true) + [last];
        assert KeysWhere(keys, false) == KeysWhere(init, false);
      } else {
        assert KeysWhere(keys, true) == KeysWhere(init, true);
        assert KeysWhere(keys, false) == KeysWhere(init, false) + [last];
      }
    }
  }

  /**
   * The order in which `Object.entries` lists an object's own keys: the
   * array indices in ascending numeric order, then the other keys in the
   * order they were created.
   */
  function EntryOrder(keys: seq<string>): (r: seq<string>)
    ensures multiset(r) == multiset(keys)
    ensures |r| == |keys|
  {
    KeysWhereSplit(keys);
    SortDesc(KeysWhere(keys, true), IndexRank) + KeysWhere(keys, false)
  }

  /** The entries start with the array indices, ascending, and end with the other keys as created. */
  lemma EntryOrderCorrect(keys: seq<string>)
    ensures var r := EntryOrder(keys);
      var n := |KeysWhere(keys, true)|;
      && n <= |r|
      && (forall i :: 0 <= i < |r| ==> (IsArrayIndex(r[i]) <==> i < n))
      && (forall i, j :: 0 <= i < j < n && IsArrayIndex(r[i]) && IsArrayIndex(r[j]) ==>
            DecimalValue(r[i]) <= DecimalValue(r[j]))
      && r[n..] == KeysWhere(keys, false)
  {
    var r := EntryOrder(keys);
    assert r == SortDesc(KeysWhere(keys, true), IndexRank) + KeysWhere(keys, false);
    EntryIndicesFirst(keys);
    EntryIndicesAscending(keys);
  }

  lemma EntryIndicesFirst(keys: seq<string>)
    ensures var r := EntryOrder(keys);
      forall i :: 0 <= i < |r| ==> (IsArrayIndex(r[i]) <==> i < |KeysWhere(keys, true)|)
  {
    var idx := KeysWhere(keys, true);
    var rest := KeysWhere(keys, false);
    var sorted := SortDesc(idx, IndexRank);
    KeysWhereMembers(keys, true);
    KeysWhereMembers(keys, false);
    SortDescSameElements(idx, IndexRank);
    var r := EntryOrder(keys);
    assert r == sorted + rest;
    forall i | 0 <= i < |r|
      ensures IsArrayIndex(r[i]) <==> i < |idx|
    {
      if i < |idx| {
        assert r[i] == sorted[i] && sorted[i] in idx;
      } else {
        assert r[i] == rest[i - |idx|] && r[i] in rest;
      }
    }
  }

  lemma EntryIndicesAscending(keys: seq<string>)
    ensures var r := EntryOrder(keys);
      forall i, j :: 0 <= i < j < |KeysWhere(keys, true)| && IsArrayIndex(r[i]) && IsArrayIndex(r[j]) ==>
        DecimalValue(r[i]) <= DecimalValue(r[j])
  {
    var idx := KeysWhere(keys, true);
    var sorted := SortDesc(idx, IndexRank);
    SortDescCorrect(idx, IndexRank);
    var r := EntryOrder(keys);
    assert r == sorted + KeysWhere(keys, false);
    forall i, j | 0 <= i < j < |idx| && IsArrayIndex(r[i]) && IsArrayIndex(r[j])
      ensures DecimalValue(r[i]) <= DecimalValue(r[j])
    {
      assert r[i] == sorted[i] && r[j] == sorted[j];
      assert !Outranks(IndexRank(sorted[j]), IndexRank(sorted[i]));
    }
  }

  /** The entries list exactly the object's keys. */
  lemma EntryKeysKnown(keys: seq<string>)
    ensures forall k :: k in EntryOrder(keys) <==> k in keys
  {
    var r := EntryOrder(keys);
    forall k
      ensures k in r <==> k in keys
    {
      assert k in r <==> k in multiset(r);
      assert k in keys <==> k in multiset(keys);
    }
  }

  /** `Object.entries(tagCounts).map(([name, count]) => ({ name, count }))` */
  function TagList(t: Tally): (r: seq<TagCount>)
    requires t.Valid()
    ensures |r| == |t.order|
    ensures forall i :: 0 <= i < |r| ==>
              r[i].name == EntryOrder(t.order)[i] && r[i].name in t.counts && r[i].count == t.counts[r[i].name]
  {
    EntryKeysKnown(t.order);
    Counted(EntryOrder(t.order), t.counts)
  }

  /** Each key paired with its count, in order. */
  function Counted(keys: seq<string>, counts: map<string, nat>): (r: seq<TagCount>)
    requires forall k :: k in keys ==> k in counts
    ensures |r| == |keys|
    ensures forall i :: 0 <= i < |r| ==> r[i] == TagCount(keys[i], counts[keys[i]])
  {
    seq(|keys|, i requires 0 <= i < |keys| => TagCount(keys[i], counts[keys[i]]))
  }

  function TagRank(t: TagCount): (int, int) {
    (t.count, 0)
  }

  // ----- Contributors -----

  datatype Contributor = Contributor(
    id: string, name: Json, department: Json, reputation: int,
    questions: nat, answers: int, likes: int)

  /** The `contributorMap` object: ids in insertion order, and the entries. */
  datatype Roster = Roster(order: seq<string>, byId: map<string, Contributor>)
  {
    ghost predicate Valid() {
      && (forall id :: id in order <==> id in byId)
      && (forall i, j :: 0 <= i < j < |order| ==> order[i] != order[j])
      && (forall id :: id in byId ==> byId[id].id == id)
    }
  }

  /** One question credited to its poster; the profile fields come from the poster's first question. */
  function Credit(r: Roster, q: FeedQuestion): (c: Roster)
    ensures c.byId.Keys == r.byId.Keys + (if ContributorId(q).Some? then {ContributorId(q).value} else {})
    ensures |c.order| <= |r.order| + 1
  {
    match ContributorId(q)
    case None => r
    case Some(id) =>
      var a := q.author.value;
      var existing := if id in r.byId then r.byId[id] else Contributor(id, a.name, a.department, a.reputation, 0, 0, 0);
      var updated := existing.(questions := existing.questions + 1,
                               answers := existing.answers + AnswerCount(q),
                               likes := existing.likes + q.likeCount);
      Roster(if id in r.byId then r.order else r.order + [id], r.byId[id := updated])
  }

  function RosterOf(qs: seq<FeedQuestion>): (r: Roster)
    ensures |r.order| <= |qs|
  {
    if qs == [] then Roster([], map[]) else Credit(RosterOf(qs[..|qs| - 1]), qs[|qs| - 1])
  }

  /** How many of the questions were posted by `id`, and the answers they drew. */
  function PostedBy(qs: seq<FeedQuestion>, id: string): nat {
    if qs == [] then 0 else PostedBy(qs[..|qs| - 1], id) + (if ContributorId(qs[|qs| - 1]) == Some(id) then 1 else 0)
  }

  function AnswersDrawnBy(qs: seq<FeedQuestion>, id: string): int {
    if qs == [] then 0 else AnswersDrawnBy(qs[..|qs| - 1], id) + (if ContributorId(qs[|qs| - 1]) == Some(id) then AnswerCount(qs[|qs| - 1]) else 0)
  }

  /** `question.likeCount || 0` summed over the questions posted by `id`. */
  function LikesBy(qs: seq<FeedQuestion>, id: string): int {
    if qs == [] then 0 else LikesBy(qs[..|qs| - 1], id) + (if ContributorId(qs[|qs| - 1]) == Some(id) then qs[|qs| - 1].likeCount else 0)
  }

  lemma {:induction false} NoPostsNoAnswers(qs: seq<FeedQuestion>, id: string)
    requires PostedBy(qs, id) == 0
    ensures AnswersDrawnBy(qs, id) == 0 && LikesBy(qs, id) == 0
    ensures forall j :: 0 <= j < |qs| ==> ContributorId(qs[j]) != Some(id)
  {
    if qs != [] {
      NoPostsNoAnswers(qs[..|qs| - 1], id);
    }
  }

  /**
   * A contributor's entry counts exactly their questions, the answers those
   * drew and the likes they received; each poster appears once.
   */
  lemma {:induction false} RosterOfCorrect(qs: seq<FeedQuestion>)
    ensures RosterOf(qs).Valid()
    ensures forall id :: id in RosterOf(qs).byId <==> PostedBy(qs, id) > 0
    ensures forall id :: id in RosterOf(qs).byId ==>
              RosterOf(qs).byId[id].questions == PostedBy(qs, id)
              && RosterOf(qs).byId[id].answers == AnswersDrawnBy(qs, id)
              && RosterOf(qs).byId[id].likes == LikesBy(qs, id)
  {
    if qs != [] {
      var p := qs[..|qs| - 1];
      RosterOfCorrect(p);
      forall id | id in RosterOf(qs).byId
        ensures RosterOf(qs).byId[id].questions == PostedBy(qs, id)
        ensures RosterOf(qs).byId[id].answers == AnswersDrawnBy(qs, id)
        ensures RosterOf(qs).byId[id].likes == LikesBy(qs, id)
      {
        assert PostedBy(qs, id) == PostedBy(p, id) + (if ContributorId(qs[|qs| - 1]) == Some(id) then 1 else 0);
        assert AnswersDrawnBy(qs, id) == AnswersDrawnBy(p, id) + (if ContributorId(qs[|qs| - 1]) == Some(id) then AnswerCount(qs[|qs| - 1]) else 0);
        assert LikesBy(qs, id) == LikesBy(p, id) + (if ContributorId(qs[|qs| - 1]) == Some(id) then qs[|qs| - 1].likeCount else 0);
        if id !in RosterOf(p).byId {
          NoPostsNoAnswers(p, id);
        }
      }
    }
  }

  /** The entry shows the poster's name, department and reputation. */
  predicate SameProfile(c: Contributor, a: Author) {
    c.name == a.name && c.department == a.department && c.reputation == a.reputation
  }

  /** `qs[i]` is the first question in `qs` posted by `id`. */
  predicate FirstPost(qs: seq<FeedQuestion>, id: string, i: int) {
    0 <= i < |qs| && ContributorId(qs[i]) == Some(id)
    && (forall j :: 0 <= j < i ==> ContributorId(qs[j]) != Some(id))
  }

  /**
   * A contributor's name, department and reputation are taken from their
   * first question in the feed; later questions do not change them.
   */
  lemma {:induction false} RosterProfiles(qs: seq<FeedQuestion>)
    ensures forall id :: id in RosterOf(qs).byId ==>
              exists i :: FirstPost(qs, id, i) && SameProfile(RosterOf(qs).byId[id], qs[i].author.value)
  {
    if qs != [] {
      var p := qs[..|qs| - 1];
      RosterProfiles(p);
      RosterOfCorrect(p);
      forall id | id in RosterOf(qs).byId
        ensures exists i :: FirstPost(qs, id, i) && SameProfile(RosterOf(qs).byId[id], qs[i].author.value)
      {
        if id in RosterOf(p).byId {
          var i :| FirstPost(p, id, i) && SameProfile(RosterOf(p).byId[id], p[i].author.value);
          ProfileFromEarlier(qs, id, i);
        } else {
          ProfileFromLast(qs, id);
        }
      }
    }
  }

  /** An entry already present before the last question keeps its first post and its profile. */
  lemma ProfileFromEarlier(qs: seq<FeedQuestion>, id: string, i: int)
    requires qs != [] && id in RosterOf(qs[..|qs| - 1]).byId && FirstPost(qs[..|qs| - 1], id, i)
    requires SameProfile(RosterOf(qs[..|qs| - 1]).byId[id], qs[i].author.value)
    ensures FirstPost(qs, id, i) && SameProfile(RosterOf(qs).byId[id], qs[i].author.value)
  {
    var p := qs[..|qs| - 1];
    assert forall j :: 0 <= j <= i ==> qs[j] == p[j];
    CreditKeepsProfile(RosterOf(p), qs[|qs| - 1], id);
  }

  /** An entry that the last question creates takes that question's profile. */
  lemma ProfileFromLast(qs: seq<FeedQuestion>, id: string)
    requires qs != [] && id in RosterOf(qs).byId && id !in RosterOf(qs[..|qs| - 1]).byId
    requires PostedBy(qs[..|qs| - 1], id) == 0
    ensures FirstPost(qs, id, |qs| - 1) && SameProfile(RosterOf(qs).byId[id], qs[|qs| - 1].author.value)
  {
    var p, last := qs[..|qs| - 1], qs[|qs| - 1];
    assert RosterOf(qs) == Credit(RosterOf(p), last);
    CreditNewEntry(RosterOf(p), last, id);
    NoPostsNoAnswers(p, id);
    forall j | 0 <= j < |p|
      ensures ContributorId(qs[j]) != Some(id)
    {
      assert qs[j] == p[j];
    }
  }

  /** An entry that crediting creates belongs to the question's poster and shows their profile. */
  lemma CreditNewEntry(r: Roster, q: FeedQuestion, id: string)
    requires id !in r.byId && id in Credit(r, q).byId
    ensures ContributorId(q) == Some(id) && SameProfile(Credit(r, q).byId[id], q.author.value)
  {
  }

  /** Crediting a question keeps the profile of an entry already present. */
  lemma CreditKeepsProfile(r: Roster, q: FeedQuestion, id: string)
    requires id in r.byId
    ensures id in Credit(r, q).byId
    ensures Credit(r, q).byId[id].name == r.byId[id].name
    ensures Credit(r, q).byId[id].department == r.byId[id].department
    ensures Credit(r, q).byId[id].reputation == r.byId[id].reputation
  {
  }

  /**
   * `Object.values(contributorMap)`: the entries in the order `Object.entries`
   * lists the ids, array-index ids first.
   */
  function RosterValues(r: Roster): (cs: seq<Contributor>)
    requires r.Valid()
    ensures |cs| == |r.order|
  {
    EntryKeysKnown(r.order);
    var keys := EntryOrder(r.order);
    seq(|keys|, i requires 0 <= i < |keys| => r.byId[keys[i]])
  }

  /** The i-th value is the entry of the i-th id that `Object.entries` lists. */
  lemma RosterValuesOrder(r: Roster)
    requires r.Valid()
    ensures forall i :: 0 <= i < |RosterValues(r)| ==>
              EntryOrder(r.order)[i] in r.byId && RosterValues(r)[i] == r.byId[EntryOrder(r.order)[i]]
  {
    EntryKeysKnown(r.order);
  }

  /** A poster whose id is an array index, credited second, is listed first. */
  lemma IndexIdListedFirst(r: Roster, a: string, b: string)
    requires r.Valid() && r.order == [a, b]
    requires !IsArrayIndex(a) && IsArrayIndex(b)
    ensures RosterValues(r) == [r.byId[b], r.byId[a]]
  {
    PairEntryOrder(a, b);
    RosterValuesOrder(r);
  }

  /** The values are exactly the roster's entries. */
  lemma RosterValuesExact(r: Roster)
    requires r.Valid()
    ensures forall c :: c in RosterValues(r) ==> c.id in r.byId && r.byId[c.id] == c
    ensures forall id :: id in r.byId ==> r.byId[id] in RosterValues(r)
  {
    var all := RosterValues(r);
    var keys := EntryOrder(r.order);
    EntryKeysKnown(r.order);
    RosterValuesOrder(r);
    forall c | c in all
      ensures c.id in r.byId && r.byId[c.id] == c
    {
      var i :| 0 <= i < |all| && all[i] == c;
      assert keys[i] in r.byId;
    }
    forall id | id in r.byId
      ensures r.byId[id] in all
    {
      assert id in keys;
      var i :| 0 <= i < |keys| && keys[i] == id;
      assert all[i] == r.byId[id];
    }
  }

  /** `b.reputation - a.reputation || b.answers - a.answers` */
  function ContributorRank(c: Contributor): (int, int) {
    (c.reputation, c.answers)
  }

  // ----- The derived statistics -----

  datatype Derived = Derived(tags: seq<TagCount>, contributors: seq<Contributor>, totalAnswers: int, totalLikes: int)

  const TopContributorCount := 5

  function Derive(qs: seq<FeedQuestion>): (d: Derived)
    ensures |d.contributors| <= TopContributorCount
    ensures d.totalAnswers == SumAnswers(qs) && d.totalLikes == SumLikes(qs)
  {
    TallyOfCorrect(AllTags(qs));
    RosterOfCorrect(qs);
    Derived(
      SortDesc(TagList(TallyOf(AllTags(qs))), TagRank),
      Take(SortDesc(RosterValues(RosterOf(qs)), ContributorRank), TopContributorCount),
      SumAnswers(qs),
      SumLikes(qs))
  }

  /** Extending the prefix by one question adds its tags, its credit and its two counts. */
  lemma PrefixStep(qs: seq<FeedQuestion>, i: nat)
    requires i < |qs|
    ensures AllTags(qs[..i + 1]) == AllTags(qs[..i]) + qs[i].tags
    ensures RosterOf(qs[..i + 1]) == Credit(RosterOf(qs[..i]), qs[i])
    ensures SumAnswers(qs[..i + 1]) == SumAnswers(qs[..i]) + AnswerCount(qs[i])
    ensures SumLikes(qs[..i + 1]) == SumLikes(qs[..i]) + LikeTotal(qs[i])
  {
    assert qs[..i + 1][..i] == qs[..i] && qs[..i + 1][i] == qs[i];
  }

  /** Counting one more tag of a question is one `CountTag` step. */
  lemma TallyStep(before: seq<string>, tags: seq<string>, j: nat)
    requires j < |tags|
    ensures TallyOf(before + tags[..j + 1]) == CountTag(TallyOf(before + tags[..j]), tags[j])
  {
    TallyOfSnoc(before + tags[..j], tags[j]);
    assert before + tags[..j + 1] == (before + tags[..j]) + [tags[j]];
  }

  /** The `useMemo` body: one pass over the questions and their tags, then the two sorts. */
  method DeriveStats(qs: seq<FeedQuestion>) returns (d: Derived)
    ensures d == Derive(qs)
  {
    var tally := Tally([], map[]);
    var roster := Roster([], map[]);
    var totalAnswers := 0;
    var totalLikes := 0;
    var i := 0;
    while i < |qs|
      invariant 0 <= i <= |qs|
      invariant tally == TallyOf(AllTags(qs[..i]))
      invariant roster == RosterOf(qs[..i])
      invariant totalAnswers == SumAnswers(qs[..i]) && totalLikes == SumLikes(qs[..i])
    {
      var q := qs[i];
      PrefixStep(qs, i);
      ghost var before := AllTags(qs[..i]);
      var j := 0;
      assert before + q.tags[..0] == before;
      while j < |q.tags|
        invariant 0 <= j <= |q.tags|
        invariant tally == TallyOf(before + q.tags[..j])
      {
        TallyStep(before, q.tags, j);
        tally := CountTag(tally, q.tags[j]);
        j := j + 1;
      }
      assert q.tags[..j] == q.tags;
      var answerCount := AnswerCount(q);
      totalAnswers := totalAnswers + answerCount;
      totalLikes := totalLikes + LikeTotal(q);
      roster := Credit(roster, q);
      i := i + 1;
    }
    assert qs[..i] == qs;
    TallyOfCorrect(AllTags(qs));
    RosterOfCorrect(qs);
    var tags := SortDesc(TagList(tally), TagRank);
    var contributors := Take(SortDesc(RosterValues(roster), ContributorRank), TopContributorCount);
    d := Derived(tags, contributors, totalAnswers, totalLikes);
  }

  /** The tag list names each tag once, with its number of occurrences, most used first. */
  lemma TagsCounted(qs: seq<FeedQuestion>)
    ensures var tags := Derive(qs).tags;
      && SortedDesc(tags, TagRank)
      && (forall t :: t in AllTags(qs) <==> exists k :: 0 <= k < |tags| && tags[k].name == t)
      && (forall k :: 0 <= k < |tags| ==> tags[k].count == Occurrences(AllTags(qs), tags[k].name))
      && (forall v :: WithRank(tags, TagRank, v) == WithRank(TagList(TallyOf(AllTags(qs))), TagRank, v))
  {
    var s := AllTags(qs);
    TallyOfCorrect(s);
    var list := TagList(TallyOf(s));
    SortDescCorrect(list, TagRank);
    SortDescSameElements(list, TagRank);
    TagListFacts(s);
    SameTagCounts(list, SortDesc(list, TagRank), s);
    forall v
      ensures WithRank(SortDesc(list, TagRank), TagRank, v) == WithRank(list, TagRank, v)
    {
      SortDescStable(list, TagRank, v);
    }
  }

  lemma TallyOfPair(a: string, b: string)
    requires a != b
    ensures TallyOf([a, b]) == Tally([a, b], map[a := 1, b := 1])
  {
    assert [a, b][..1] == [a] && [a][..0] == [];
    var t1 := TallyOf([a]);
    assert t1 == CountTag(TallyOf([]), a);
    assert t1.order == [a] && t1.counts == map[a := 1];
    assert TallyOf([a, b]) == CountTag(t1, b);
    assert b !in t1.counts;
  }

  /** An array-index key created second is listed first. */
  lemma PairEntryOrder(a: string, b: string)
    requires !IsArrayIndex(a) && IsArrayIndex(b)
    ensures EntryOrder([a, b]) == [b, a]
  {
    assert [a, b][..1] == [a] && [a][..0] == [];
    assert KeysWhere([a], true) == KeysWhere([], true) + [] == [];
    assert KeysWhere([a], false) == KeysWhere([], false) + [a] == [a];
    assert KeysWhere([a, b], true) == KeysWhere([a], true) + [b] == [b];
    assert KeysWhere([a, b], false) == KeysWhere([a], false) + [] == [a];
    assert [b][1..] == [];
    assert SortDesc([b], IndexRank) == [b];
  }

  /** Two entries of the same count stay in place. */
  lemma EqualCountsStay(x: TagCount, y: TagCount)
    requires x.count == y.count
    ensures SortDesc([x, y], TagRank) == [x, y]
  {
    assert [x, y][1..] == [y] && [y][1..] == [];
    assert SortDesc([y], TagRank) == [y];
  }

  /** Of two tags used equally often, an array-index tag is listed first and becomes the hero's top tag. */
  lemma IndexTagWinsTie(a: string, b: string)
    requires !IsArrayIndex(a) && IsArrayIndex(b)
    ensures TopTag(SortDesc(TagList(TallyOf([a, b])), TagRank)) == b
  {
    PairTagList(a, b);
    EqualCountsStay(TagCount(b, 1), TagCount(a, 1));
  }

  /** The tag list of two distinct tags, an array index created second. */
  lemma PairTagList(a: string, b: string)
    requires !IsArrayIndex(a) && IsArrayIndex(b)
    ensures TagList(TallyOf([a, b])) == [TagCount(b, 1), TagCount(a, 1)]
  {
    TallyOfPair(a, b);
    PairEntryOrder(a, b);
    TagListOfTwo(TallyOf([a, b]), b, a);
  }

  /** A tally of two tags used once each lists them in entry order. */
  lemma TagListOfTwo(t: Tally, x: string, y: string)
    requires t.Valid() && EntryOrder(t.order) == [x, y] && t.counts == map[y := 1, x := 1]
    ensures TagList(t) == [TagCount(x, 1), TagCount(y, 1)]
  {
    assert TagList(t) == Counted([x, y], t.counts);
    CountedTwo(x, y, t.counts);
  }

  lemma CountedTwo(x: string, y: string, counts: map<string, nat>)
    requires x in counts && y in counts
    ensures Counted([x, y], counts) == [TagCount(x, counts[x]), TagCount(y, counts[y])]
  {
    var list := Counted([x, y], counts);
    assert list[0] == TagCount(x, counts[x]) && list[1] == TagCount(y, counts[y]);
  }

  /** Before sorting, the tag list names each tag of `s` and carries its number of occurrences. */
  lemma TagListFacts(s: seq<string>)
    ensures forall t :: t in s <==> exists i :: 0 <= i < |TagList(TallyOf(s))| && TagList(TallyOf(s))[i].name == t
    ensures forall e :: e in TagList(TallyOf(s)) ==> e.count == Occurrences(s, e.name)
  {
    TallyOfCorrect(s);
    TagListOfCounts(TallyOf(s), s);
  }

  /** The tag list of any tally that counts `s`. */
  lemma TagListOfCounts(tally: Tally, s: seq<string>)
    requires tally.Valid()
    requires forall t :: t in tally.counts <==> t in s
    requires forall t :: t in tally.counts ==> tally.counts[t] == Occurrences(s, t)
    ensures forall t :: t in s <==> exists i :: 0 <= i < |TagList(tally)| && TagList(tally)[i].name == t
    ensures forall e :: e in TagList(tally) ==> e.count == Occurrences(s, e.name)
  {
    TagListNames(tally);
    TagListCounts(tally, s);
  }

  /** The tag list names exactly the counted tags. */
  lemma TagListNames(tally: Tally)
    requires tally.Valid()
    ensures forall t :: t in tally.counts <==> exists i :: 0 <= i < |TagList(tally)| && TagList(tally)[i].name == t
  {
    var list := TagList(tally);
    var keys := EntryOrder(tally.order);
    EntryKeysKnown(tally.order);
    forall t | t in tally.counts
      ensures exists i :: 0 <= i < |list| && list[i].name == t
    {
      var i :| 0 <= i < |keys| && keys[i] == t;
      assert list[i].name == t;
    }
  }

  /** Each entry of the tag list carries its tag's count. */
  lemma TagListCounts(tally: Tally, s: seq<string>)
    requires tally.Valid()
    requires forall t :: t in tally.counts ==> tally.counts[t] == Occurrences(s, t)
    ensures forall e :: e in TagList(tally) ==> e.count == Occurrences(s, e.name)
  {
    var list := TagList(tally);
    forall e | e in list
      ensures e.count == Occurrences(s, e.name)
    {
      var i :| 0 <= i < |list| && list[i] == e;
      assert e.name in tally.counts;
    }
  }

  /** A reordering of a tag list names the same tags with the same counts. */
  lemma SameTagCounts(list: seq<TagCount>, tags: seq<TagCount>, s: seq<string>)
    requires forall e :: e in tags <==> e in list
    requires forall t :: t in s <==> exists i :: 0 <= i < |list| && list[i].name == t
    requires forall e :: e in list ==> e.count == Occurrences(s, e.name)
    ensures forall t :: t in s <==> exists k :: 0 <= k < |tags| && tags[k].name == t
    ensures forall k :: 0 <= k < |tags| ==> tags[k].count == Occurrences(s, tags[k].name)
  {
    forall t | t in s
      ensures exists k :: 0 <= k < |tags| && tags[k].name == t
    {
      var i :| 0 <= i < |list| && list[i].name == t;
      assert list[i] in tags;
      var k :| 0 <= k < |tags| && tags[k] == list[i];
    }
    forall k | 0 <= k < |tags|
      ensures tags[k].name in s
    {
      assert tags[k] in list;
      var i :| 0 <= i < |list| && list[i] == tags[k];
    }
  }

  /**
   * The contributor table holds the first five posters, or all of them when
   * fewer, ranked by reputation, then answers drawn, and nobody left out
   * outranks anyone kept.
   */
  lemma ContributorsRanked(qs: seq<FeedQuestion>)
    ensures RosterOf(qs).Valid()
    ensures var cs := Derive(qs).contributors;
      var r := RosterOf(qs);
      && SortedDesc(cs, ContributorRank)
      && |cs| == (if |r.order| < TopContributorCount then |r.order| else TopContributorCount)
      && (forall k :: 0 <= k < |cs| ==> cs[k].id in r.byId && r.byId[cs[k].id] == cs[k])
      && (forall id :: id in r.byId && (forall k :: 0 <= k < |cs| ==> cs[k].id != id) ==>
            forall k :: 0 <= k < |cs| ==> !Outranks(ContributorRank(r.byId[id]), ContributorRank(cs[k])))
  {
    DeriveContributors(qs);
    TopOfRoster(RosterOf(qs));
  }

  /** Each poster in the contributor table carries their true question, answer and like counts. */
  lemma ContributorsCounted(qs: seq<FeedQuestion>)
    ensures var cs := Derive(qs).contributors;
      forall k :: 0 <= k < |cs| ==>
        && cs[k].questions == PostedBy(qs, cs[k].id) && PostedBy(qs, cs[k].id) > 0
        && cs[k].answers == AnswersDrawnBy(qs, cs[k].id)
        && cs[k].likes == LikesBy(qs, cs[k].id)
  {
    ContributorsRanked(qs);
    RosterOfCorrect(qs);
    TableCounts(Derive(qs).contributors, RosterOf(qs).byId, qs);
  }

  /** The table is the top five of the roster's values. */
  lemma DeriveContributors(qs: seq<FeedQuestion>)
    ensures RosterOf(qs).Valid()
    ensures Derive(qs).contributors == Take(SortDesc(RosterValues(RosterOf(qs)), ContributorRank), TopContributorCount)
  {
    RosterOfCorrect(qs);
  }

  /** Entries taken from a roster that counts `qs` carry their posters' true counts. */
  lemma TableCounts(cs: seq<Contributor>, byId: map<string, Contributor>, qs: seq<FeedQuestion>)
    requires forall k :: 0 <= k < |cs| ==> cs[k].id in byId && byId[cs[k].id] == cs[k]
    requires forall id :: id in byId <==> PostedBy(qs, id) > 0
    requires forall id :: id in byId ==>
               byId[id].questions == PostedBy(qs, id)
               && byId[id].answers == AnswersDrawnBy(qs, id)
               && byId[id].likes == LikesBy(qs, id)
    ensures forall k :: 0 <= k < |cs| ==>
              && cs[k].questions == PostedBy(qs, cs[k].id) && PostedBy(qs, cs[k].id) > 0
              && cs[k].answers == AnswersDrawnBy(qs, cs[k].id)
              && cs[k].likes == LikesBy(qs, cs[k].id)
  {
    forall k | 0 <= k < |cs|
      ensures cs[k].questions == PostedBy(qs, cs[k].id) && PostedBy(qs, cs[k].id) > 0
      ensures cs[k].answers == AnswersDrawnBy(qs, cs[k].id) && cs[k].likes == LikesBy(qs, cs[k].id)
    {
      var id := cs[k].id;
      assert id in byId && byId[id] == cs[k];
    }
  }

  /** The first five of any roster, ranked: entries of the roster, and nobody left out outranks anyone kept. */
  lemma TopOfRoster(r: Roster)
    requires r.Valid()
    ensures var cs := Take(SortDesc(RosterValues(r), ContributorRank), TopContributorCount);
      && SortedDesc(cs, ContributorRank)
      && |cs| == (if |r.order| < TopContributorCount then |r.order| else TopContributorCount)
      && (forall k :: 0 <= k < |cs| ==> cs[k].id in r.byId && r.byId[cs[k].id] == cs[k])
      && (forall id :: id in r.byId && (forall k :: 0 <= k < |cs| ==> cs[k].id != id) ==>
            forall k :: 0 <= k < |cs| ==> !Outranks(ContributorRank(r.byId[id]), ContributorRank(cs[k])))
  {
    RosterValuesExact(r);
    TopOfValues(RosterValues(r), r.byId);
  }

  /** The first five of any values that are exactly the entries of `byId`. */
  lemma TopOfValues(all: seq<Contributor>, byId: map<string, Contributor>)
    requires forall c :: c in all ==> c.id in byId && byId[c.id] == c
    requires forall id :: id in byId ==> byId[id] in all && byId[id].id == id
    ensures var cs := Take(SortDesc(all, ContributorRank), TopContributorCount);
      && SortedDesc(cs, ContributorRank)
      && |cs| == (if |all| < TopContributorCount then |all| else TopContributorCount)
      && (forall k :: 0 <= k < |cs| ==> cs[k].id in byId && byId[cs[k].id] == cs[k])
      && (forall id :: id in byId && (forall k :: 0 <= k < |cs| ==> cs[k].id != id) ==>
            forall k :: 0 <= k < |cs| ==> !Outranks(ContributorRank(byId[id]), ContributorRank(cs[k])))
  {
    var sorted := SortDesc(all, ContributorRank);
    SortDescCorrect(all, ContributorRank);
    SortDescSameElements(all, ContributorRank);
    TopNLeads(all, ContributorRank, TopContributorCount);
    var cs := Take(sorted, TopContributorCount);
    TopMembers(sorted, cs, byId);
    TopLeads(sorted, cs, byId);
  }

  /** A prefix of values drawn from `byId` holds entries of `byId`. */
  lemma TopMembers(sorted: seq<Contributor>, cs: seq<Contributor>, byId: map<string, Contributor>)
    requires |cs| <= |sorted| && cs == sorted[..|cs|]
    requires forall c :: c in sorted ==> c.id in byId && byId[c.id] == c
    ensures forall k :: 0 <= k < |cs| ==> cs[k].id in byId && byId[cs[k].id] == cs[k]
  {
    forall k | 0 <= k < |cs|
      ensures cs[k].id in byId && byId[cs[k].id] == cs[k]
    {
      assert cs[k] == sorted[k] && sorted[k] in sorted;
    }
  }

  /** Nothing past the kept prefix outranks it, so no entry left out outranks one kept. */
  lemma TopLeads(sorted: seq<Contributor>, cs: seq<Contributor>, byId: map<string, Contributor>)
    requires |cs| <= |sorted| && cs == sorted[..|cs|]
    requires forall i, j :: 0 <= i < |cs| <= j < |sorted| ==>
               !Outranks(ContributorRank(sorted[j]), ContributorRank(sorted[i]))
    requires forall id :: id in byId ==> byId[id] in sorted && byId[id].id == id
    ensures forall id :: id in byId && (forall k :: 0 <= k < |cs| ==> cs[k].id != id) ==>
              forall k :: 0 <= k < |cs| ==> !Outranks(ContributorRank(byId[id]), ContributorRank(cs[k]))
  {
    forall id | id in byId && (forall k :: 0 <= k < |cs| ==> cs[k].id != id)
      ensures forall k :: 0 <= k < |cs| ==> !Outranks(ContributorRank(byId[id]), ContributorRank(cs[k]))
    {
      forall k | 0 <= k < |cs|
        ensures sorted[k] != byId[id]
      {
        assert cs[k] == sorted[k];
      }
      var j :| 0 <= j < |sorted| && sorted[j] == byId[id];
      forall k | 0 <= k < |cs|
        ensures !Outranks(ContributorRank(byId[id]), ContributorRank(cs[k]))
      {
        assert cs[k] == sorted[k];
      }
    }
  }

  // ----- Hero figures -----

  /** `derived.tags[0]?.name || "react"` */
  function TopTag(tags: seq<TagCount>): (name: string)
    ensures name != ""
    ensures |tags| > 0 && tags[0].name != "" ==> name == tags[0].name
    ensures (|tags| == 0 || tags[0].name == "") ==> name == "react"
  {
    if |tags| > 0 && tags[0].name != "" then tags[0].name else "react"
  }

  /** `Math.max(Math.round(total / 14), 1)`, with `data?.total ?? 0`. */
  function DailyQuestions(total: Option<int>): (n: int)
    ensures n >= 1
    ensures n == 1 <==> total.GetOr(0) < 21
    ensures var t := total.GetOr(0); n == 1 || (14 * n - 7 <= t < 14 * n + 7)
  {
    var t := total.GetOr(0);
    var rounded := (t + 7) / 14;
    if rounded > 1 then rounded else 1
  }

  /** The daily figure grows with the total. */
  lemma DailyQuestionsMonotone(a: int, b: int)
    requires a <= b
    ensures DailyQuestions(Some(a)) <= DailyQuestions(Some(b))
  {
    assert (a + 7) / 14 <= (b + 7) / 14;
  }

  // ----- Controls -----

  /** The feed query's arguments. */
  datatype QueryArgs = QueryArgs(search: Option<string>, sort: string)

  class FeedControls {
    var search: string
    var sort: string
    var activeTag: string

    /** A tag filter and a typed search are never both set. */
    predicate Exclusive()
      reads this
    {
      activeTag == "" || search == ""
    }

    constructor ()
      ensures search == "" && sort == "newest" && activeTag == ""
      ensures Exclusive()
    {
      search, sort, activeTag := "", "newest", "";
    }

    /** `activeTag ? activeTag : search || undefined` */
    function Args(): (q: QueryArgs)
      reads this
      ensures activeTag != "" ==> q.search == Some(activeTag)
      ensures activeTag == "" && search != "" ==> q.search == Some(search)
      ensures activeTag == "" && search == "" ==> q.search.None?
      ensures q.sort == sort
    {
      QueryArgs(if activeTag != "" then Some(activeTag) else if search != "" then Some(search) else None, sort)
    }

    /** Choosing a trending tag filters by it and clears the typed search. */
    method SelectTag(tag: string)
      modifies this
      ensures activeTag == tag && search == "" && sort == old(sort)
      ensures Exclusive()
    {
      activeTag := tag;
      search := "";
    }

    method ClearActiveTag()
      modifies this
      ensures activeTag == "" && search == old(search) && sort == old(sort)
      ensures Exclusive()
    {
      activeTag := "";
    }

    /** Typing in the search box replaces the search and drops the tag filter. */
    method TypeSearch(text: string)
      modifies this
      ensures search == text && activeTag == "" && sort == old(sort)
      ensures Exclusive()
      ensures Args().search == NonEmpty(Some(text))
    {
      search := text;
      activeTag := "";
    }

    method SetSort(value: string)
      modifies this
      ensures sort == value && search == old(search) && activeTag == old(activeTag)
      ensures old(Exclusive()) ==> Exclusive()
    {
      sort := value;
    }
  }
}
