/**
 * The comma-separated tag field of the question forms: how the text is
 * turned into tags when asking a question and when editing one, and how
 * an existing question's tags are written back into the field.
 */
module TagInput {
  import opened Strings

  /** `.map((tag) => tag.trim())` */
  function TrimAll(pieces: seq<string>): (r: seq<string>)
    ensures |r| == |pieces|
    ensures forall i :: 0 <= i < |r| ==> r[i] == Trim(pieces[i])
  {
    seq(|pieces|, i requires 0 <= i < |pieces| => Trim(pieces[i]))
  }

  /** `.filter(Boolean)` on strings: the non-empty ones, in order. */
  function KeepNonEmpty(pieces: seq<string>): (r: seq<string>)
    ensures |r| <= |pieces|
    ensures forall t :: t in r <==> t in pieces && t != ""
  {
    if pieces == [] then []
    else
      assert pieces == [pieces[0]] + pieces[1..];
      (if pieces[0] != "" then [pieces[0]] else []) + KeepNonEmpty(pieces[1..])
  }

  /** The filter drops every empty piece and keeps every copy of the others. */
  lemma {:induction false} KeepNonEmptyCounts(pieces: seq<string>)
    ensures forall t :: multiset(KeepNonEmpty(pieces))[t] == if t != "" then multiset(pieces)[t] else 0
  {
    if pieces != [] {
      assert pieces == [pieces[0]] + pieces[1..];
      KeepNonEmptyCounts(pieces[1..]);
    }
  }

  /** The filter keeps order: filtering two runs of pieces one after the other is filtering them joined. */
  lemma {:induction false} KeepNonEmptyConcat(a: seq<string>, b: seq<string>)
    ensures KeepNonEmpty(a + b) == KeepNonEmpty(a) + KeepNonEmpty(b)
  {
    if a == [] {
      assert a + b == b;
    } else {
      var head := if a[0] != "" then [a[0]] else [];
      assert a + b == [a[0]] + (a[1..] + b) && a == [a[0]] + a[1..];
      calc {
        KeepNonEmpty(a + b);
        head + KeepNonEmpty(a[1..] + b);
        { KeepNonEmptyConcat(a[1..], b); }
        head + (KeepNonEmpty(a[1..]) + KeepNonEmpty(b));
        (head + KeepNonEmpty(a[1..])) + KeepNonEmpty(b);
        KeepNonEmpty(a) + KeepNonEmpty(b);
      }
    }
  }

  /** The question form's tag transform: empty text gives no tags. */
  function ParseTags(raw: string): (tags: seq<string>)
    ensures raw == "" ==> tags == []
    ensures forall t :: t in tags ==> t != ""
  {
    if raw == "" then [] else KeepNonEmpty(TrimAll(Split(raw, ',')))
  }

  /** The edit form's tag handling: tags are read only when the text is not blank. */
  function EditTags(raw: string): (tags: seq<string>)
    ensures Trim(raw) == "" ==> tags == []
    ensures forall t :: t in tags ==> t != ""
  {
    if raw != "" && Trim(raw) != "" then KeepNonEmpty(TrimAll(Split(raw, ','))) else []
  }

  /** A tag as the parser produces it: non-empty, trimmed, without a comma. */
  predicate CleanTag(t: string) {
    t != "" && !IsWhitespace(t[0]) && !IsWhitespace(t[|t| - 1]) && ',' !in t
  }

  lemma TrimKeepsOut(s: string, c: char)
    requires c !in s
    ensures c !in Trim(s)
  {
    var t := TrimStart(s);
    assert t == s[|s| - |t|..];
    assert c !in t;
    var r := TrimEnd(t);
    assert r == t[..|r|];
  }

  /** Every parsed tag is clean, and there are at most one more tags than commas. */
  lemma ParsedTagsClean(raw: string)
    ensures forall t :: t in ParseTags(raw) ==> CleanTag(t)
    ensures |ParseTags(raw)| <= CountChar(raw, ',') + 1
  {
    if raw != "" {
      var pieces := Split(raw, ',');
      var trimmed := TrimAll(pieces);
      var kept := KeepNonEmpty(trimmed);
      assert ParseTags(raw) == kept;
      forall t | t in kept
        ensures CleanTag(t)
      {
        assert t in trimmed && t != "";
        var i :| 0 <= i < |trimmed| && trimmed[i] == t;
        TrimmedPieceClean(pieces[i]);
      }
      SplitLength(raw, ',');
    }
  }

  /** A piece without a comma that is not blank trims to a clean tag. */
  lemma TrimmedPieceClean(piece: string)
    requires ',' !in piece && Trim(piece) != ""
    ensures CleanTag(Trim(piece))
  {
    TrimKeepsOut(piece, ',');
  }

  /** Both forms read the same tags from the same text. */
  lemma EditTagsAgree(raw: string)
    ensures EditTags(raw) == ParseTags(raw)
  {
    if raw != "" && Trim(raw) == "" {
      TrimEmptyIffAllWhitespace(raw);
      assert ',' !in raw by {
        forall i | 0 <= i < |raw| ensures raw[i] != ',' {
          assert IsWhitespace(raw[i]);
        }
      }
      SplitNoSeparator(raw, ',');
      assert TrimAll([raw]) == [Trim(raw)];
    }
  }

  /** What the edit form's field is filled with: an array of tags joined with ", ", or the text as stored. */
  datatype StoredTags = TagArray(tags: seq<string>) | TagText(text: string) | NoTags

  function SeedText(stored: StoredTags): string {
    match stored
    case TagArray(tags) => JoinWith(tags, ", ")
    case TagText(text) => text
    case NoTags => ""
  }

  /** `" " + t` for every tag. */
  function Spaced(tags: seq<string>): (r: seq<string>)
    ensures |r| == |tags|
    ensures forall i :: 0 <= i < |r| ==> r[i] == " " + tags[i]
  {
    seq(|tags|, i requires 0 <= i < |tags| => " " + tags[i])
  }

  lemma {:induction false} SpacedJoin(tags: seq<string>)
    requires |tags| >= 1
    ensures " " + JoinWith(tags, ", ") == Join(Spaced(tags), ',')
    decreases |tags|
  {
    if |tags| > 1 {
      SpacedJoin(tags[1..]);
      assert Spaced(tags)[1..] == Spaced(tags[1..]);
    }
  }

  lemma {:induction false} KeepAllNonEmpty(pieces: seq<string>)
    requires forall i :: 0 <= i < |pieces| ==> pieces[i] != ""
    ensures KeepNonEmpty(pieces) == pieces
    decreases |pieces|
  {
    if pieces != [] {
      KeepAllNonEmpty(pieces[1..]);
    }
  }

  /** The pieces the written-back text splits into: the first tag, then each later tag after a space. */
  function Padded(tags: seq<string>): seq<string>
    requires |tags| >= 1
  {
    [tags[0]] + Spaced(tags[1..])
  }

  lemma JoinCons(p: string, ps: seq<string>, sep: char)
    requires |ps| >= 1
    ensures Join([p] + ps, sep) == p + [sep] + Join(ps, sep)
  {
    assert ([p] + ps)[1..] == ps;
  }

  lemma JoinWithCons(tags: seq<string>, sep: string)
    requires |tags| >= 2
    ensures JoinWith(tags, sep) == tags[0] + sep + JoinWith(tags[1..], sep)
  {
  }

  lemma CommaSpace(a: string, r: string)
    ensures a + ", " + r == a + [','] + (" " + r)
  {
    assert ", " == [','] + [' '];
  }

  lemma JoinAsPadded(tags: seq<string>)
    requires |tags| >= 1
    ensures JoinWith(tags, ", ") == Join(Padded(tags), ',')
  {
    if |tags| > 1 {
      var rest := JoinWith(tags[1..], ", ");
      SpacedJoin(tags[1..]);
      JoinWithCons(tags, ", ");
      JoinCons(tags[0], Spaced(tags[1..]), ',');
      CommaSpace(tags[0], rest);
    }
  }

  lemma TrimPadded(tags: seq<string>)
    requires |tags| >= 1
    requires forall i :: 0 <= i < |tags| ==> CleanTag(tags[i])
    ensures TrimAll(Padded(tags)) == tags
  {
    var pieces := Padded(tags);
    forall i | 0 <= i < |pieces|
      ensures Trim(pieces[i]) == tags[i]
    {
      TrimPiece(tags, i);
    }
  }

  /** Each piece of the written-back text trims to its tag. */
  lemma TrimPiece(tags: seq<string>, i: nat)
    requires i < |tags|
    requires CleanTag(tags[i])
    ensures Trim(Padded(tags)[i]) == tags[i]
  {
    var piece := Padded(tags)[i];
    if i == 0 {
      assert piece == tags[0];
      TrimOfTrimmed(tags[0]);
    } else {
      assert piece == Spaced(tags[1..])[i - 1] == " " + tags[i];
      TrimOfTrimmed(tags[i]);
    }
  }

  /** Opening a question for editing and saving the field untouched submits the same tags. */
  lemma SeedRoundTrip(tags: seq<string>)
    requires forall i :: 0 <= i < |tags| ==> CleanTag(tags[i])
    ensures ParseTags(SeedText(TagArray(tags))) == tags
    ensures EditTags(SeedText(TagArray(tags))) == tags
  {
    EditTagsAgree(SeedText(TagArray(tags)));
    if tags != [] {
      var pieces := Padded(tags);
      JoinAsPadded(tags);
      assert forall i :: 0 <= i < |pieces| ==> ',' !in pieces[i];
      SplitJoin(pieces, ',');
      TrimPadded(tags);
      KeepAllNonEmpty(tags);
      assert JoinWith(tags, ", ") != "" by {
        if |tags| > 1 {
          assert JoinWith(tags, ", ")[0] == tags[0][0];
        }
      }
    }
  }

  /** Parsing is idempotent through the edit form: re-parsing the written-back tags changes nothing. */
  lemma ParseIdempotent(raw: string)
    ensures ParseTags(SeedText(TagArray(ParseTags(raw)))) == ParseTags(raw)
  {
    ParsedTagsClean(raw);
    var tags := ParseTags(raw);
    assert forall i :: 0 <= i < |tags| ==> tags[i] in tags;
    SeedRoundTrip(tags);
  }
}
