/**
 * A question in the home feed: the image attachments and the cover picked
 * from them, the text snippet and the tags shown. The plain text of the
 * question's markdown is an input here.
 */
module QuestionCard {
  import opened Wrappers
  import opened Strings
  import opened FileUrls

  /** `imageAttachments`: the attachments, in order, whose name (last segment, else the path) is an image name. */
  function ImageAttachments(attachments: seq<string>): (images: seq<string>)
    ensures |images| <= |attachments|
    ensures forall f :: f in images ==> f in attachments && IsImageName(AttachmentName(f, f))
    ensures forall f :: f in attachments && IsImageName(AttachmentName(f, f)) ==> f in images
    decreases |attachments|
  {
    if attachments == [] then []
    else
      var rest := ImageAttachments(attachments[1..]);
      if IsImageName(AttachmentName(attachments[0], attachments[0])) then [attachments[0]] + rest else rest
  }

  /** The images are the attachments whose path itself ends in an image extension, in order. */
  function ImagesByPath(attachments: seq<string>): seq<string>
    decreases |attachments|
  {
    if attachments == [] then []
    else (if IsImageName(attachments[0]) then [attachments[0]] else []) + ImagesByPath(attachments[1..])
  }

  lemma {:induction false} ImagesAreByPath(attachments: seq<string>)
    ensures ImageAttachments(attachments) == ImagesByPath(attachments)
    decreases |attachments|
  {
    if attachments != [] {
      ImagesAreByPath(attachments[1..]);
      ImageTestSeesOnlyTheEnd(attachments[0]);
    }
  }

  /** `snippet`: the first 180 characters and "..." for a longer text, otherwise the text. */
  function Snippet(text: string): (s: string)
    ensures |text| <= 180 ==> s == text
    ensures |text| > 180 ==> |s| == 183 && s[..180] == text[..180] && s[180..] == "..."
  {
    if |text| > 180 then text[..180] + "..." else text
  }

  /** A snippet is its own snippet. */
  lemma SnippetIdempotent(text: string)
    ensures Snippet(Snippet(text)) == Snippet(text)
  {
    if |text| > 180 {
      var s := Snippet(text);
      assert s[..180] == text[..180];
    }
  }

  /** `tags?.slice(0, 4)` */
  function ShownTags(tags: seq<string>): (shown: seq<string>)
    ensures |shown| <= 4 && shown <= tags
    ensures |tags| <= 4 ==> shown == tags
    ensures |tags| > 4 ==> |shown| == 4
  {
    if |tags| <= 4 then tags else tags[..4]
  }

  /** The cover: the URL of the first image attachment, and none without one. */
  function Cover(origin: string, attachments: seq<string>): (cover: Option<string>)
    ensures cover.None? <==> ImageAttachments(attachments) == []
    ensures cover.Some? ==> Some(cover.value) == FileUrl(origin, Some(ImageAttachments(attachments)[0]))
  {
    var images := ImageAttachments(attachments);
    if images == [] then None
    else
      assert images[0] in attachments && IsImageName(AttachmentName(images[0], images[0]));
      FileUrl(origin, Some(images[0]))
  }

  /** An attachment list whose first entry is an image takes that entry as the cover. */
  lemma FirstImageIsCover(origin: string, attachments: seq<string>)
    requires attachments != [] && IsImageName(attachments[0])
    ensures Cover(origin, attachments) == FileUrl(origin, Some(attachments[0]))
  {
    ImagesAreByPath(attachments);
  }

  /** The fields of a question the card reads; defaults as the destructuring gives them. */
  datatype Question = Question(plainText: string, tags: seq<string>, attachments: seq<string>)

  datatype CardView = CardView(snippet: string, tags: seq<string>, cover: Option<string>, images: seq<string>)

  /** The card, or nothing for a missing question. */
  function Card(origin: string, question: Option<Question>): (view: Option<CardView>)
    ensures view.None? <==> question.None?
    ensures view.Some? ==>
              && |view.value.snippet| <= 183
              && |view.value.tags| <= 4
              && (forall f :: f in view.value.images ==> f in question.value.attachments && IsImageName(f))
              && (view.value.cover.Some? <==> view.value.images != [])
  {
    match question
    case None => None
    case Some(q) =>
      ImagesAreByPath(q.attachments);
      ImagesByPathAreImages(q.attachments);
      Some(CardView(Snippet(q.plainText), ShownTags(q.tags), Cover(origin, q.attachments), ImageAttachments(q.attachments)))
  }

  lemma {:induction false} ImagesByPathAreImages(attachments: seq<string>)
    ensures forall f :: f in ImagesByPath(attachments) ==> f in attachments && IsImageName(f)
    decreases |attachments|
  {
    if attachments != [] {
      ImagesByPathAreImages(attachments[1..]);
    }
  }
}
