// The post editor's submission (src/components/BlogEditor.tsx): validating the
// five form fields after trimming, parsing the comma-separated tags, building
// the excerpt, and how a post's own fields read back through the form.
module Editor {
  import opened Types
  import opened Seqs
  import opened Text

  /** Characters of trimmed content kept in the excerpt. */
  const ExcerptLength := 200
  /** Appended to the excerpt when the raw content is longer than ExcerptLength. */
  const TruncationMarker := "..."
  /** Category of a fresh form. */
  const DefaultCategory := "general"
  /** How a post's tags are shown in the comma-separated tags field. */
  const TagGlue := ", "

  /** The raw text of the five form fields. */
  datatype FormFields = FormFields(title: string, content: string, author: string, category: string, tags: string)

  /** The form's five inputs. */
  datatype Field = Title | Content | Author | Category | Tags

  /** A tag as submission produces it: non-empty, no surrounding white space, no comma. */
  predicate IsCleanTag(t: string)
  {
    t != [] && IsTrimmed(t) && ',' !in t
  }

  /** The filter `tag => tag.length > 0`. */
  predicate IsNonEmpty(t: string)
  {
    |t| > 0
  }

  /** String.prototype.substring(0, n) for n >= 0. */
  function Take(s: string, n: nat): (r: string)
    ensures |r| <= n && |r| <= |s| && r == s[..|r|]
    ensures |s| <= n ==> r == s
    ensures |s| > n ==> |r| == n
  {
    if |s| <= n then s else s[..n]
  }

  /** Trimming adds no character: what is in the trim was in the text. */
  lemma TrimDropsNoOtherChar(s: string, c: char)
    requires c in Trim(s)
    ensures c in s
  {
    var r := Trim(s);
    var i := |s| - |TrimStart(s)|;
    TrimIsSlice(s);
    var k :| 0 <= k < |r| && r[k] == c;
    assert s[i..i + |r|][k] == s[i + k];
  }

  /** Each piece trimmed, as `.map(tag => tag.trim())` does. */
  function TrimAll(pieces: seq<string>): (r: seq<string>)
    ensures |r| == |pieces| && forall k :: 0 <= k < |pieces| ==> r[k] == Trim(pieces[k])
  {
    if pieces == [] then [] else [Trim(pieces[0])] + TrimAll(pieces[1..])
  }

  /** Trimmed comma-free pieces are trimmed and comma-free. */
  lemma TrimmedPiecesAreClean(pieces: seq<string>)
    requires forall k :: 0 <= k < |pieces| ==> ',' !in pieces[k]
    ensures forall t | t in TrimAll(pieces) :: IsTrimmed(t) && ',' !in t
  {
    var trimmed := TrimAll(pieces);
    forall t | t in trimmed ensures IsTrimmed(t) && ',' !in t {
      var k :| 0 <= k < |trimmed| && trimmed[k] == t;
      if ',' in t {
        TrimDropsNoOtherChar(pieces[k], ',');
      }
    }
  }

  /** The trimmed pieces that survive the emptiness filter are clean tags. */
  lemma KeptPiecesAreClean(pieces: seq<string>, r: seq<string>)
    requires forall k :: 0 <= k < |pieces| ==> ',' !in pieces[k]
    requires r == Filter(TrimAll(pieces), IsNonEmpty)
    ensures forall k :: 0 <= k < |r| ==> IsCleanTag(r[k])
  {
    var trimmed := TrimAll(pieces);
    TrimmedPiecesAreClean(pieces);
    FilterMembers(trimmed, IsNonEmpty);
    forall k | 0 <= k < |r| ensures IsCleanTag(r[k]) {
      var t := r[k];
      assert t in r;
      assert t in trimmed && IsNonEmpty(t);
    }
  }

  /** Tag parsing: split on commas, trim each piece, drop the empty ones. */
  function ParseTags(text: string): (r: seq<string>)
    ensures forall k :: 0 <= k < |r| ==> IsCleanTag(r[k])
  {
    var pieces := Split(text, ',');
    SplitPieces(text, ',');
    var r := Filter(TrimAll(pieces), IsNonEmpty);
    KeptPiecesAreClean(pieces, r);
    r
  }

  /** The excerpt: the first ExcerptLength characters of the trimmed content,
      plus the marker when the UNTRIMMED content is longer than ExcerptLength. */
  function Excerpt(content: string): (r: string)
    ensures |r| <= ExcerptLength + |TruncationMarker|
    ensures |content| <= ExcerptLength ==> r == Trim(content)
    ensures |content| > ExcerptLength ==>
      |r| >= |TruncationMarker| && r[|r| - |TruncationMarker|..] == TruncationMarker &&
      r[..|r| - |TruncationMarker|] == Take(Trim(content), ExcerptLength)
  {
    var body := Take(Trim(content), ExcerptLength);
    var r := body + (if |content| > ExcerptLength then TruncationMarker else "");
    assert r[..|body|] == body;
    r
  }

  /** Submission: nothing is saved when a required field is blank; otherwise
      the payload carries the trimmed fields, the parsed tags and the excerpt. */
  function Submit(f: FormFields): (r: Option<PostData>)
    ensures r.None? <==> AllSpace(f.title) || AllSpace(f.content) || AllSpace(f.author) || AllSpace(f.category)
    ensures r.Some? ==>
      && r.value.title != [] && IsTrimmed(r.value.title)
      && r.value.content != [] && IsTrimmed(r.value.content)
      && r.value.author != [] && IsTrimmed(r.value.author)
      && r.value.category != [] && IsTrimmed(r.value.category)
      && (forall k :: 0 <= k < |r.value.tags| ==> IsCleanTag(r.value.tags[k]))
      && |r.value.excerpt| <= ExcerptLength + |TruncationMarker|
  {
    TrimBlank(f.title);
    TrimBlank(f.content);
    TrimBlank(f.author);
    TrimBlank(f.category);
    if Trim(f.title) == [] || Trim(f.content) == [] || Trim(f.author) == [] || Trim(f.category) == [] then None
    else Some(PostData(Trim(f.title), Trim(f.content), Trim(f.author), Trim(f.category), ParseTags(f.tags), Excerpt(f.content)))
  }

  /** Each saved text field is its field with the white space at both ends cut
      off and nothing else; the tags and the excerpt come from the raw fields. */
  lemma SubmitKeepsTrimmedText(f: FormFields)
    requires Submit(f).Some?
    ensures var d := Submit(f).value;
      && TrimmedAt(f.title, d.title, |f.title| - |TrimStart(f.title)|)
      && TrimmedAt(f.content, d.content, |f.content| - |TrimStart(f.content)|)
      && TrimmedAt(f.author, d.author, |f.author| - |TrimStart(f.author)|)
      && TrimmedAt(f.category, d.category, |f.category| - |TrimStart(f.category)|)
      && d.tags == ParseTags(f.tags) && d.excerpt == Excerpt(f.content)
  {
    TrimIsSlice(f.title);
    TrimIsSlice(f.content);
    TrimIsSlice(f.author);
    TrimIsSlice(f.category);
  }

  /** The form after the prefill effect has copied an edited post into it:
      clean tags, shown joined by ", ", read back as the same list. */
  function PrefilledFields(p: Post): (r: FormFields)
    ensures (forall k :: 0 <= k < |p.tags| ==> IsCleanTag(p.tags[k])) ==> ParseTags(r.tags) == p.tags
  {
    if forall k :: 0 <= k < |p.tags| ==> IsCleanTag(p.tags[k]) then
      TagsRoundTrip(p.tags);
      FormFields(p.title, p.content, p.author, p.category, Join(p.tags, TagGlue))
    else
      FormFields(p.title, p.content, p.author, p.category, Join(p.tags, TagGlue))
  }

  /** The pieces that splitting `Join(tags, ", ")` on commas yields: every tag
      after the first keeps the space of the glue in front of it. */
  function Padded(tags: seq<string>): (r: seq<string>)
    ensures |r| == |tags|
    ensures forall k :: 0 < k < |tags| ==> r[k] == " " + tags[k]
    ensures |tags| > 0 ==> r[0] == tags[0]
  {
    seq(|tags|, k requires 0 <= k < |tags| => if k == 0 then tags[0] else " " + tags[k])
  }

  /** A prefix on the first piece is a prefix of the joined text. */
  lemma JoinUnderHead(p: string, a: string, rest: seq<string>, glue: string)
    ensures Join([p + a] + rest, glue) == p + Join([a] + rest, glue)
  {
    assert ([p + a] + rest)[1..] == rest;
    assert ([a] + rest)[1..] == rest;
  }

  /** Joining with ", " is joining the padded tags with ",". */
  lemma {:induction false} JoinWithSpaceGlue(tags: seq<string>)
    requires |tags| >= 1
    ensures Join(tags, TagGlue) == Join(Padded(tags), ",")
  {
    if |tags| >= 2 {
      var tail := tags[1..];
      JoinWithSpaceGlue(tail);
      var rest := Padded(tail)[1..];
      assert Padded(tags)[1..] == [" " + tail[0]] + rest;
      assert Padded(tail) == [tail[0]] + rest;
      JoinUnderHead(" ", tail[0], rest, ",");
    }
  }

  /** Splitting the tags field on commas yields the padded tags. */
  lemma JoinedTagsSplit(tags: seq<string>)
    requires |tags| >= 1 && forall k :: 0 <= k < |tags| ==> IsCleanTag(tags[k])
    ensures Split(Join(tags, TagGlue), ',') == Padded(tags)
  {
    JoinWithSpaceGlue(tags);
    var padded := Padded(tags);
    forall k | 0 <= k < |padded| ensures ',' !in padded[k] {
      if k > 0 { assert padded[k] == [' '] + tags[k]; }
    }
    SplitJoin(padded, ',');
  }

  /** Tags shown as "a, b, c" by the prefill come back unchanged on submit. */
  lemma {:induction false} TagsRoundTrip(tags: seq<string>)
    requires forall k :: 0 <= k < |tags| ==> IsCleanTag(tags[k])
    ensures ParseTags(Join(tags, TagGlue)) == tags
  {
    if tags == [] {
      assert Split("", ',') == [""];
      assert TrimAll([""]) == [""];
    } else {
      JoinedTagsSplit(tags);
      var trimmed := TrimAll(Padded(tags));
      forall k | 0 <= k < |tags| ensures trimmed[k] == tags[k] {
        if k > 0 {
          TrimSkipsLeadingSpace(' ', tags[k]);
        }
        TrimOfTrimmed(tags[k]);
      }
      assert trimmed == tags;
      FilterKeepsAll(tags, IsNonEmpty);
    }
  }

  /** A tag typed after the glue's space is read back without it. */
  lemma TrimAfterGlueSpace(t: string)
    requires IsTrimmed(t)
    ensures Trim([' '] + t) == t
  {
    TrimSkipsLeadingSpace(' ', t);
    TrimOfTrimmed(t);
  }

  /** Parsing comma-joined pieces trims each piece and drops the empty ones. */
  lemma ParseTagsOfPieces(pieces: seq<string>, text: string)
    requires |pieces| >= 1 && forall k :: 0 <= k < |pieces| ==> ',' !in pieces[k]
    requires text == Join(pieces, ",")
    ensures ParseTags(text) == Filter(TrimAll(pieces), IsNonEmpty)
  {
    SplitJoin(pieces, ',');
  }

  /** The text "a, b, , c" is the four pieces "a", " b", " " and " c" joined by commas. */
  lemma BlankTagPieces(a: string, b: string, c: string)
    ensures Join([a, [' '] + b, " ", [' '] + c], ",") == a + ", " + b + ", , " + c
  {
    var s := [a, [' '] + b, " ", [' '] + c];
    assert s[1..] == [[' '] + b, " ", [' '] + c];
    assert s[1..][1..] == [" ", [' '] + c];
    assert s[1..][1..][1..] == [[' '] + c];
    assert Join(s[1..][1..], ",") == " " + "," + ([' '] + c);
  }

  /** Trimming four pieces, one at a time. */
  lemma FourPiecesTrimmed(p0: string, p1: string, p2: string, p3: string, t0: string, t1: string, t2: string, t3: string)
    requires Trim(p0) == t0 && Trim(p1) == t1 && Trim(p2) == t2 && Trim(p3) == t3
    ensures TrimAll([p0, p1, p2, p3]) == [t0, t1, t2, t3]
  {
    var m := TrimAll([p0, p1, p2, p3]);
    assert |m| == 4 && m[0] == t0 && m[1] == t1 && m[2] == t2 && m[3] == t3;
  }

  /** The empty third piece is dropped, the other three kept in order. */
  lemma BlankTagFiltered(a: string, b: string, c: string)
    requires IsCleanTag(a) && IsCleanTag(b) && IsCleanTag(c)
    ensures Filter([a, b, "", c], IsNonEmpty) == [a, b, c]
  {
    assert [a, b, "", c] == [a, b] + [""] + [c];
    FilterConcat([a, b] + [""], [c], IsNonEmpty);
    FilterConcat([a, b], [""], IsNonEmpty);
    FilterKeepsAll([a, b], IsNonEmpty);
    FilterKeepsAll([c], IsNonEmpty);
  }

  /** The shape of the worked example "a, b, , c": a blank piece between two
      separators disappears and the clean tags around it come back in order. */
  lemma BlankTagDropped(a: string, b: string, c: string)
    requires IsCleanTag(a) && IsCleanTag(b) && IsCleanTag(c)
    ensures ParseTags(a + ", " + b + ", , " + c) == [a, b, c]
  {
    var pieces := [a, [' '] + b, " ", [' '] + c];
    BlankTagPieces(a, b, c);
    ParseTagsOfPieces(pieces, a + ", " + b + ", , " + c);
    TrimOfTrimmed(a);
    TrimAfterGlueSpace(b);
    TrimAfterGlueSpace(c);
    TrimBlank(" ");
    FourPiecesTrimmed(a, [' '] + b, " ", [' '] + c, a, b, [], c);
    BlankTagFiltered(a, b, c);
  }

  /** The worked example itself. */
  lemma ParseTagsExample()
    ensures ParseTags("a, b, , c") == ["a", "b", "c"]
  {
    var a, b, c := "a", "b", "c";
    assert a + ", " + b + ", , " + c == "a, b, , c";
    BlankTagDropped(a, b, c);
  }

  /** Content of exactly ExcerptLength characters is its own excerpt. */
  lemma ExcerptAtLimit(content: string)
    requires |content| == ExcerptLength && IsTrimmed(content)
    ensures Excerpt(content) == content
  {
    TrimOfTrimmed(content);
  }

  /** One character more and the excerpt is cut and marked. */
  lemma ExcerptJustOverLimit(content: string)
    requires |content| == ExcerptLength + 1 && IsTrimmed(content)
    ensures Excerpt(content) == content[..ExcerptLength] + TruncationMarker
  {
    TrimOfTrimmed(content);
  }

  /** Text longer than ExcerptLength whose trim is not: the whole trim, then the marker. */
  lemma ExcerptOfShortTrim(content: string, trimmed: string)
    requires |content| > ExcerptLength && Trim(content) == trimmed && |trimmed| <= ExcerptLength
    ensures Excerpt(content) == trimmed + TruncationMarker
  {
    var r := Excerpt(content);
    assert r == r[..|r| - |TruncationMarker|] + r[|r| - |TruncationMarker|..];
  }

  /** The marker follows the untrimmed length: a leading space turns an
      uncut 200-character body into a marked excerpt. */
  lemma ExcerptMarkerCountsSurroundingSpace(body: string)
    requires |body| == ExcerptLength && IsTrimmed(body)
    ensures Excerpt([' '] + body) == body + TruncationMarker
  {
    TrimAfterGlueSpace(body);
    ExcerptOfShortTrim([' '] + body, body);
  }

  /** Opening an existing clean post and submitting without changes saves
      the same fields and tags. */
  lemma ResubmitUnchanged(p: Post)
    requires p.title != [] && IsTrimmed(p.title) && p.content != [] && IsTrimmed(p.content)
    requires p.author != [] && IsTrimmed(p.author) && p.category != [] && IsTrimmed(p.category)
    requires forall k :: 0 <= k < |p.tags| ==> IsCleanTag(p.tags[k])
    ensures Submit(PrefilledFields(p)) == Some(PostData(p.title, p.content, p.author, p.category, p.tags, Excerpt(p.content)))
  {
    SubmitOfClean(PrefilledFields(p));
  }

  /** Fields that are already trimmed and non-blank are saved as they are. */
  lemma SubmitOfClean(f: FormFields)
    requires f.title != [] && IsTrimmed(f.title) && f.content != [] && IsTrimmed(f.content)
    requires f.author != [] && IsTrimmed(f.author) && f.category != [] && IsTrimmed(f.category)
    ensures Submit(f) == Some(PostData(f.title, f.content, f.author, f.category, ParseTags(f.tags), Excerpt(f.content)))
  {
    TrimOfTrimmed(f.title);
    TrimOfTrimmed(f.content);
    TrimOfTrimmed(f.author);
    TrimOfTrimmed(f.category);
  }

}
