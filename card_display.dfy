/**
 * Display rules the three card views share (components/FlashcardItem.tsx,
 * components/FlashcardFlip.tsx, app/flashcard-detail.tsx): the comma-separated
 * tag list, the difficulty colour of the two components, and the fallback texts.
 */
module CardDisplay {
  import Text
  import opened FlashcardUtils

  // ---------------------------------------------------------------------------
  // Tags
  // ---------------------------------------------------------------------------

  /** `pieces.map(t => t.trim())`. */
  function TrimAll(pieces: seq<string>): (r: seq<string>)
    ensures |r| == |pieces|
    ensures forall k :: 0 <= k < |r| ==> r[k] == Text.Trim(pieces[k])
  {
    if pieces == [] then [] else [Text.Trim(pieces[0])] + TrimAll(pieces[1..])
  }

  /** `pieces.filter(Boolean)`: the non-empty pieces, in order. */
  function DropEmpty(pieces: seq<string>): (r: seq<string>)
    ensures |r| <= |pieces|
    ensures forall k :: 0 <= k < |r| ==> r[k] != "" && r[k] in pieces
    ensures (forall k :: 0 <= k < |pieces| ==> pieces[k] != "") ==> r == pieces
    ensures multiset(r) == multiset(pieces)["" := 0]
  {
    if pieces == [] then []
    else
      assert pieces == [pieces[0]] + pieces[1..];
      if pieces[0] == "" then DropEmpty(pieces[1..])
      else [pieces[0]] + DropEmpty(pieces[1..])
  }

  /** Filtering keeps order: the kept pieces of `a + b` are those of `a` followed by those of `b`. */
  lemma {:induction false} DropEmptyConcat(a: seq<string>, b: seq<string>)
    ensures DropEmpty(a + b) == DropEmpty(a) + DropEmpty(b)
  {
    if a != [] {
      assert (a + b)[0] == a[0];
      assert (a + b)[1..] == a[1..] + b;
      DropEmptyConcat(a[1..], b);
      var head := if a[0] == "" then [] else [a[0]];
      assert DropEmpty(a + b) == head + DropEmpty(a[1..] + b);
      assert DropEmpty(a) == head + DropEmpty(a[1..]);
    } else {
      assert a + b == b;
    }
  }

  /** Trimming works piece by piece: `TrimAll` of `a + b` is that of `a` followed by that of `b`. */
  lemma TrimAllConcat(a: seq<string>, b: seq<string>)
    ensures TrimAll(a + b) == TrimAll(a) + TrimAll(b)
  {
    var l, r := TrimAll(a + b), TrimAll(a) + TrimAll(b);
    assert |l| == |r|;
    forall k | 0 <= k < |l| ensures l[k] == r[k] {
      if k < |a| {
        assert (a + b)[k] == a[k] && r[k] == TrimAll(a)[k];
      } else {
        assert (a + b)[k] == b[k - |a|] && r[k] == TrimAll(b)[k - |a|];
      }
    }
  }

  /** A tag as it can be shown: non-empty, without surrounding whitespace, without a comma. */
  predicate IsTag(t: string) {
    t != "" && Text.IsTrimmed(t) && ',' !in t
  }

  /** Trimming a piece without a comma leaves a trimmed piece without a comma. */
  lemma TrimmedPieceClean(piece: string)
    requires ',' !in piece
    ensures Text.IsTrimmed(Text.Trim(piece)) && ',' !in Text.Trim(piece)
  {
    var i := |piece| - |Text.TrimStart(piece)|;
    Text.TrimInfix(piece);
    assert Text.Trim(piece) == piece[i..i + |Text.Trim(piece)|];
  }

  /** The trimmed pieces of a comma split are trimmed and hold no comma. */
  lemma TrimmedPiecesClean(tags: string)
    ensures forall k :: 0 <= k < |TrimAll(Text.Split(tags, ','))| ==>
      Text.IsTrimmed(TrimAll(Text.Split(tags, ','))[k]) && ',' !in TrimAll(Text.Split(tags, ','))[k]
  {
    var pieces := Text.Split(tags, ',');
    var trimmed := TrimAll(pieces);
    forall k | 0 <= k < |trimmed| ensures Text.IsTrimmed(trimmed[k]) && ',' !in trimmed[k] {
      TrimmedPieceClean(pieces[k]);
    }
  }

  /** Dropping the empty pieces of clean pieces leaves tags only. */
  lemma DropEmptyGivesTags(pieces: seq<string>)
    requires forall k :: 0 <= k < |pieces| ==> Text.IsTrimmed(pieces[k]) && ',' !in pieces[k]
    ensures forall k :: 0 <= k < |DropEmpty(pieces)| ==> IsTag(DropEmpty(pieces)[k])
  {
    var r := DropEmpty(pieces);
    forall k | 0 <= k < |r| ensures IsTag(r[k]) {
      var j :| 0 <= j < |pieces| && pieces[j] == r[k];
    }
  }

  /**
   * The tags of a card: its `tags` string split on commas, each piece trimmed,
   * empty pieces dropped; an empty string gives no tags.
   */
  function ParseTags(tags: string): (r: seq<string>)
    ensures forall k :: 0 <= k < |r| ==> IsTag(r[k])
    ensures multiset(r) == multiset(TrimAll(Text.Split(tags, ',')))["" := 0]
  {
    if tags != "" then
      TrimmedPiecesClean(tags);
      DropEmptyGivesTags(TrimAll(Text.Split(tags, ',')));
      DropEmpty(TrimAll(Text.Split(tags, ',')))
    else
      EmptyTagsGuardRedundant();
      []
  }

  /** The `?:` guard on an empty string is redundant: splitting `""` yields one empty piece, which is dropped. */
  lemma EmptyTagsGuardRedundant()
    ensures DropEmpty(TrimAll(Text.Split("", ','))) == []
  {
    assert Text.Split("", ',') == [""];
    assert Text.Trim("") == "";
    assert TrimAll([""]) == [""];
  }

  /** Trimming pieces that are already trimmed changes nothing. */
  lemma TrimAllTrimmed(pieces: seq<string>)
    requires forall k :: 0 <= k < |pieces| ==> Text.IsTrimmed(pieces[k])
    ensures TrimAll(pieces) == pieces
  {
    forall k | 0 <= k < |pieces| ensures TrimAll(pieces)[k] == pieces[k] {
      Text.TrimOfTrimmed(pieces[k]);
    }
  }

  /** Joining tags with commas and parsing the result gives the tags back. */
  lemma ParseJoinedTags(ts: seq<string>)
    requires forall k :: 0 <= k < |ts| ==> IsTag(ts[k])
    ensures ParseTags(Text.Join(ts, ',')) == ts
  {
    if ts != [] {
      ParseTagsOfJoin(ts);
      TrimAllTrimmed(ts);
      assert forall k :: 0 <= k < |ts| ==> ts[k] != "";
      assert DropEmpty(ts) == ts;
    }
  }

  /** A join of two or more parts is never empty: it holds a separator. */
  lemma JoinOfManyNonEmpty(ps: seq<string>)
    requires |ps| > 1
    ensures Text.Join(ps, ',') != ""
  {
    assert Text.Join(ps, ',') == ps[0] + [','] + Text.Join(ps[1..], ',');
  }

  /**
   * Any comma-separated text parses piece by piece: the tags of `p0,p1,...` are
   * the pieces trimmed, with the empty ones dropped, in their order.
   */
  lemma ParseTagsOfJoin(ps: seq<string>)
    requires |ps| >= 1 && forall k :: 0 <= k < |ps| ==> ',' !in ps[k]
    ensures ParseTags(Text.Join(ps, ',')) == DropEmpty(TrimAll(ps))
  {
    Text.SplitJoin(ps, ',');
    if Text.Join(ps, ',') == "" {
      if |ps| > 1 {
        JoinOfManyNonEmpty(ps);
      }
      assert ps == [""];
      EmptyTagsGuardRedundant();
    }
  }

  /** The tags of two comma-joined segments are the tags of the first followed by those of the second. */
  lemma ParseTagsConcat(ps: seq<string>, qs: seq<string>)
    requires |ps| >= 1 && forall k :: 0 <= k < |ps| ==> ',' !in ps[k]
    requires |qs| >= 1 && forall k :: 0 <= k < |qs| ==> ',' !in qs[k]
    ensures ParseTags(Text.Join(ps + qs, ',')) == ParseTags(Text.Join(ps, ',')) + ParseTags(Text.Join(qs, ','))
  {
    forall k | 0 <= k < |ps + qs| ensures ',' !in (ps + qs)[k] {
      if k < |ps| {
        assert (ps + qs)[k] == ps[k];
      } else {
        assert (ps + qs)[k] == qs[k - |ps|];
      }
    }
    ParseTagsOfJoin(ps);
    ParseTagsOfJoin(qs);
    ParseTagsOfJoin(ps + qs);
    TrimAllConcat(ps, qs);
    DropEmptyConcat(TrimAll(ps), TrimAll(qs));
    calc {
      ParseTags(Text.Join(ps + qs, ','));
      DropEmpty(TrimAll(ps + qs));
      DropEmpty(TrimAll(ps) + TrimAll(qs));
      DropEmpty(TrimAll(ps)) + DropEmpty(TrimAll(qs));
      ParseTags(Text.Join(ps, ',')) + ParseTags(Text.Join(qs, ','));
    }
  }

  // ---------------------------------------------------------------------------
  // Colours
  // ---------------------------------------------------------------------------

  /** The palette entries the card views use, by their names in the colour constants. */
  datatype Colour = Success | Warning | Error | TextSecondary

  /** The difficulty levels the colour rules know. */
  predicate IsKnownLevel(level: JsValue) {
    level == Str("BEGINNER") || level == Str("INTERMEDIATE") || level == Str("ADVANCED")
  }

  /** `getDifficultyColor` of the list item and the flip card: an exact-match `switch`. */
  function DifficultyColor(level: JsValue): (c: Colour)
    ensures c == Success <==> level == Str("BEGINNER")
    ensures c == Warning <==> level == Str("INTERMEDIATE")
    ensures c == Error <==> level == Str("ADVANCED")
    ensures c == TextSecondary <==> !IsKnownLevel(level)
  {
    match level
    case Str("BEGINNER") => Success
    case Str("INTERMEDIATE") => Warning
    case Str("ADVANCED") => Error
    case _ => TextSecondary
  }

  // ---------------------------------------------------------------------------
  // Fallback texts
  // ---------------------------------------------------------------------------

  /** `frontContent || 'No question available'`. */
  function QuestionText(card: Flashcard): (t: string)
    ensures t != ""
    ensures card.frontContent != "" ==> t == card.frontContent
    ensures card.frontContent == "" ==> t == "No question available"
  {
    if card.frontContent != "" then card.frontContent else "No question available"
  }

  /** `backContent || 'No answer available'`. */
  function AnswerText(card: Flashcard): (t: string)
    ensures t != ""
    ensures card.backContent != "" ==> t == card.backContent
    ensures card.backContent == "" ==> t == "No answer available"
  {
    if card.backContent != "" then card.backContent else "No answer available"
  }
}
