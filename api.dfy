/** The data access layer. The post store only keeps flat posts, so an
    ornament's placement travels inside the post's free text as
    `<message>|||<metadata JSON>`. JSON itself is not modelled: the metadata
    text is opaque, and the parser and serialiser are parameters. */
module Api {
  import opened Wrappers
  import opened Text
  import opened Types

  const Separator: string := "|||"

  /** What the metadata JSON of an ornament post holds once parsed; `x` and
      `y` may be missing from what the store returns. */
  datatype Metadata = Metadata(
    design: OrnamentDesign,
    panelIndex: int,
    slotIndex: Option<int>,
    x: Option<real>,
    y: Option<real>)

  /** The two halves of an ornament post's content. */
  datatype Parts = Parts(message: string, metadataText: string)

  /** The content written for an ornament post. */
  function EncodeContent(message: string, metadataText: string): string
  {
    message + Separator + metadataText
  }

  // ---- splitting the content: as the client is written ----

  /** `content.split("|||")`, keeping pieces 0 and 1, for content that holds
      the separator. Piece 0 stops at the FIRST occurrence of the separator;
      piece 1 runs from there to the next occurrence, or to the end. */
  function SplitContentAsWritten(content: string): (r: Option<Parts>)
    ensures r.Some? <==> Contains(content, Separator)
    ensures r.Some? ==> !Contains(r.value.message, Separator) && !Contains(r.value.metadataText, Separator)
    ensures r.Some? ==> (&& |r.value.message| + |Separator| <= |content|
                         && content[..|r.value.message|] == r.value.message
                         && IndexOf(content, Separator) == Some(|r.value.message|))
    ensures r.Some? ==> var rest := content[|r.value.message| + |Separator|..];
                        && |r.value.metadataText| <= |rest|
                        && rest[..|r.value.metadataText|] == r.value.metadataText
                        && IndexOf(rest, Separator) == if |r.value.metadataText| == |rest| then None
                                                       else Some(|r.value.metadataText|)
  {
    if Contains(content, Separator) then
      var pieces := Split(content, Separator);
      var i := IndexOf(content, Separator).value;
      var rest := content[i + 3..];
      assert pieces == [content[..i]] + Split(rest, Separator);
      SplitSecondPiece(rest, Split(rest, Separator));
      Some(Parts(pieces[0], pieces[1]))
    else None
  }

  /** The first piece of a split of `rest` is a prefix of it, ending at the
      first occurrence of the separator or at the end. */
  lemma SplitSecondPiece(rest: string, tail: seq<string>)
    requires tail == Split(rest, Separator)
    ensures |tail[0]| <= |rest| && rest[..|tail[0]|] == tail[0]
    ensures IndexOf(rest, Separator) == if |tail[0]| == |rest| then None else Some(|tail[0]|)
  {
    var first := tail[0];
    if |tail| == 1 {
      assert rest == first;
    } else {
      var later := Join(tail[1..], Separator);
      assert rest == first + Separator + later;
      assert rest[..|first|] == first;
    }
  }

  /** The first-separator split gives back message and metadata text when no
      occurrence of the separator starts inside the message, that is when
      `message + "||"` holds none (a message ending in '|' fails this).
      `ContentCutShortAsWritten` is the converse. */
  lemma {:induction false} ContentRoundTripAsWritten(message: string, metadataText: string)
    requires !Contains(message + "||", Separator)
    requires !Contains(metadataText, Separator)
    ensures SplitContentAsWritten(EncodeContent(message, metadataText)) == Some(Parts(message, metadataText))
  {
    var s := EncodeContent(message, metadataText);
    var m := |message|;
    assert s[m..m + 3] == Separator;
    assert s[..m + 2] == message + "||";
    OccursAtPrefix(s, Separator, m + 2);
    ContainsIff(s, Separator, m);
    assert OccursAt(s, Separator, m);
    var i := IndexOf(s, Separator).value;
    if i < m {
      ContainsIff(message + "||", Separator, i);
      assert false;
    }
    assert i == m;
    assert s[m + 3..] == metadataText;
    assert Split(s, Separator) == [message] + Split(metadataText, Separator);
  }

  /** Only then: when `message + "||"` holds the separator, the first
      occurrence in the content starts inside the message, and the message read
      back is a strict prefix of the one written. */
  lemma {:induction false} ContentCutShortAsWritten(message: string, metadataText: string)
    requires Contains(message + "||", Separator)
    ensures SplitContentAsWritten(EncodeContent(message, metadataText)).Some?
    ensures var m := SplitContentAsWritten(EncodeContent(message, metadataText)).value.message;
      |m| < |message| && message[..|m|] == m
  {
    var s := EncodeContent(message, metadataText);
    var j :| 0 <= j <= |message + "||"| && OccursAt(message + "||", Separator, j);
    assert OccursAt(s, Separator, j) by {
      assert s[..|message| + 2] == message + "||";
      OccursAtPrefix(s, Separator, |message| + 2);
    }
    FirstCutAtOrBefore(s, j);
    var k := |SplitContentAsWritten(s).value.message|;
    assert s[..|message|] == message;
    assert message[..k] == s[..k];
  }

  /** The client's split cuts at or before any occurrence of the separator. */
  lemma FirstCutAtOrBefore(content: string, j: int)
    requires OccursAt(content, Separator, j)
    ensures SplitContentAsWritten(content).Some?
    ensures |SplitContentAsWritten(content).value.message| <= j
  {
    ContainsIff(content, Separator, j);
    var k := |SplitContentAsWritten(content).value.message|;
    assert IndexOf(content, Separator) == Some(k);
  }

  /** A message ending in '|' is cut short: the first separator found starts
      inside it, the message loses its last character, and the metadata text
      handed to the JSON parser begins with a stray '|'. */
  lemma FirstSeparatorCutsTrailingBar()
    ensures EncodeContent("a|", "{}") == "a||||{}"
    ensures SplitContentAsWritten(EncodeContent("a|", "{}")) == Some(Parts("a", "|{}"))
  {
    var s := EncodeContent("a|", "{}");
    assert s == "a||||{}";
    TrailingBarFirstOccurrence();
    StrayBarNoOccurrence();
    ContainsIff(s, Separator, 1);
    var r := SplitContentAsWritten(s).value;
    assert r.message == "a" by {
      assert |r.message| == 1;
      assert r.message == s[..1];
    }
    assert r.metadataText == "|{}" by {
      assert s[4..] == "|{}";
    }
  }

  /** In "a||||{}" the first separator starts at position 1. */
  lemma TrailingBarFirstOccurrence()
    ensures IndexOf("a||||{}", Separator) == Some(1)
  {
    var s := "a||||{}";
    assert OccursAt(s, Separator, 1) by {
      assert s[1..4] == ['|', '|', '|'] == Separator;
    }
    assert !OccursAt(s, Separator, 0) by {
      assert s[0] == 'a' != Separator[0];
    }
    ContainsIff(s, Separator, 1);
  }

  /** "|{}" holds no separator. */
  lemma StrayBarNoOccurrence()
    ensures IndexOf("|{}", Separator) == None
  {
    forall j ensures !OccursAt("|{}", Separator, j) {
      if j == 0 {
        assert "|{}"[0..3][1] != Separator[1];
      }
    }
  }

  // ---- splitting the content: corrected ----

  /** The message is everything before the LAST separator, the metadata text
      everything after it. Metadata JSON never holds the separator, so this is
      the split the encoding calls for. */
  function SplitContent(content: string): (r: Option<Parts>)
    ensures r.Some? <==> Contains(content, Separator)
    ensures r.Some? ==> content == EncodeContent(r.value.message, r.value.metadataText)
    ensures r.Some? ==> !Contains(r.value.metadataText, Separator)
  {
    match LastIndexOf(content, Separator)
    case None =>
      None
    case Some(i) =>
      ContainsIff(content, Separator, i);
      var tail := content[i + 3..];
      OccursAtSuffix(content, Separator, i + 3);
      assert content == content[..i] + Separator + tail;
      Some(Parts(content[..i], tail))
  }

  /** Any message, separators and trailing bars included, comes back
      unchanged, together with the metadata text, provided the metadata text
      holds no separator and does not start with '|' (JSON objects start with
      '{'). */
  lemma {:induction false} ContentRoundTrip(message: string, metadataText: string)
    requires !Contains(metadataText, Separator)
    requires metadataText == [] || metadataText[0] != '|'
    ensures SplitContent(EncodeContent(message, metadataText)) == Some(Parts(message, metadataText))
  {
    var s := EncodeContent(message, metadataText);
    var m := |message|;
    assert OccursAt(s, Separator, m) by {
      assert s[m..m + 3] == Separator;
    }
    forall j | m < j
      ensures !OccursAt(s, Separator, j)
    {
      if j < m + 3 {
        NoSeparatorAcrossMetadataStart(message, metadataText, j);
      } else {
        NoSeparatorInsideMetadata(message, metadataText, j);
      }
    }
  }

  /** No separator of the encoding starts inside the appended one and runs
      into metadata text that does not start with '|'. */
  lemma NoSeparatorAcrossMetadataStart(message: string, metadataText: string, j: int)
    requires metadataText == [] || metadataText[0] != '|'
    requires |message| < j < |message| + 3
    ensures !OccursAt(EncodeContent(message, metadataText), Separator, j)
  {
    var s := EncodeContent(message, metadataText);
    var m := |message|;
    if j + 3 <= |s| {
      var d := m + 3 - j;
      assert s[j..j + 3][d] == s[m + 3] == metadataText[0] != Separator[d];
    }
  }

  /** No separator of the encoding starts inside separator-free metadata text. */
  lemma NoSeparatorInsideMetadata(message: string, metadataText: string, j: int)
    requires !Contains(metadataText, Separator)
    requires |message| + 3 <= j
    ensures !OccursAt(EncodeContent(message, metadataText), Separator, j)
  {
    var s := EncodeContent(message, metadataText);
    var m := |message|;
    if j + 3 <= |s| {
      assert s[j..j + 3] == metadataText[j - m - 3..j - m];
      assert !OccursAt(metadataText, Separator, j - m - 3);
    }
  }

  /** The corrected split agrees with the client's split whenever the latter
      is right: for content holding exactly one separator. */
  lemma {:induction false} SplitsAgreeOnSingleSeparator(message: string, metadataText: string)
    requires !Contains(message + "||", Separator)
    requires !Contains(metadataText, Separator)
    requires metadataText == [] || metadataText[0] != '|'
    ensures SplitContent(EncodeContent(message, metadataText))
         == SplitContentAsWritten(EncodeContent(message, metadataText))
  {
    ContentRoundTrip(message, metadataText);
    ContentRoundTripAsWritten(message, metadataText);
  }

  // ---- decoding posts into ornaments ----

  /** One post of the store, read as an ornament: only posts whose content
      holds the separator; the metadata text must parse and carry both
      coordinates, and the post is dropped otherwise; the placement comes from
      the metadata, the message from the text before the separator, and the
      owner's name stands in for the user id. */
  function DecodePost(post: PostListItem, parse: string -> Option<Metadata>): Option<PlacedOrnament>
  {
    if |post.content| > 0 && Contains(post.content, Separator) then
      var parts := SplitContent(post.content).value;
      match parse(parts.metadataText)
      case None => None
      case Some(md) =>
        if md.x.Some? && md.y.Some? then
          Some(PlacedOrnament(post.id, post.name, post.name, post.affiliation, md.design,
                              md.panelIndex, md.slotIndex, md.x.value, md.y.value, parts.message))
        else None
    else None
  }

  /** A post yields an ornament exactly when its content holds the separator
      and its metadata text parses with both coordinates, and is dropped
      otherwise; the placement is the parsed metadata's and the message the
      text before the separator. */
  lemma DecodePostCases(post: PostListItem, parse: string -> Option<Metadata>)
    ensures var r := DecodePost(post, parse);
      r.Some? <==> (&& |post.content| > 0 && Contains(post.content, Separator)
                    && var md := parse(SplitContent(post.content).value.metadataText);
                       md.Some? && md.value.x.Some? && md.value.y.Some?)
    ensures var r := DecodePost(post, parse);
      r.Some? ==> var parts := SplitContent(post.content).value;
                  var md := parse(parts.metadataText).value;
                  && r.value.design == md.design && r.value.panelIndex == md.panelIndex
                  && r.value.slotIndex == md.slotIndex
                  && r.value.x == md.x.value && r.value.y == md.y.value
                  && r.value.message == parts.message
    ensures var r := DecodePost(post, parse);
      r.Some? ==> && r.value.id == post.id
                  && r.value.userId == post.name && r.value.userName == post.name
                  && r.value.affiliation == post.affiliation
    ensures var r := DecodePost(post, parse);
      r.Some? ==> exists metadataText :: post.content == EncodeContent(r.value.message, metadataText)
                                         && !Contains(metadataText, Separator)
  {
  }

  /** As the client is written: the same reading of a post, with message and
      metadata text taken from the first-separator split. */
  function DecodePostAsWritten(post: PostListItem, parse: string -> Option<Metadata>): Option<PlacedOrnament>
  {
    if |post.content| > 0 && Contains(post.content, Separator) then
      var parts := SplitContentAsWritten(post.content).value;
      match parse(parts.metadataText)
      case None => None
      case Some(md) =>
        if md.x.Some? && md.y.Some? then
          Some(PlacedOrnament(post.id, post.name, post.name, post.affiliation, md.design,
                              md.panelIndex, md.slotIndex, md.x.value, md.y.value, parts.message))
        else None
    else None
  }

  /** The same cases for the client as written, over the first-separator
      split. */
  lemma DecodePostAsWrittenCases(post: PostListItem, parse: string -> Option<Metadata>)
    ensures var r := DecodePostAsWritten(post, parse);
      r.Some? <==> (&& |post.content| > 0 && Contains(post.content, Separator)
                    && var md := parse(SplitContentAsWritten(post.content).value.metadataText);
                       md.Some? && md.value.x.Some? && md.value.y.Some?)
    ensures var r := DecodePostAsWritten(post, parse);
      r.Some? ==> var parts := SplitContentAsWritten(post.content).value;
                  var md := parse(parts.metadataText).value;
                  && r.value.design == md.design && r.value.panelIndex == md.panelIndex
                  && r.value.slotIndex == md.slotIndex
                  && r.value.x == md.x.value && r.value.y == md.y.value
                  && r.value.message == parts.message
    ensures var r := DecodePostAsWritten(post, parse);
      r.Some? ==> && r.value.id == post.id
                  && r.value.userId == post.name && r.value.userName == post.name
                  && r.value.affiliation == post.affiliation
  {
  }

  /** A post's contribution to the decoded list: its ornament, or nothing. */
  function Contribution(o: Option<PlacedOrnament>): seq<PlacedOrnament>
  {
    match o case Some(v) => [v] case None => []
  }

  /** The ornaments a post list yields under a per-post reading `decode`:
      those of the posts that yield one, in list order. */
  function Collect(posts: seq<PostListItem>, decode: PostListItem -> Option<PlacedOrnament>): seq<PlacedOrnament>
    decreases |posts|
  {
    if posts == [] then []
    else Collect(posts[..|posts| - 1], decode) + Contribution(decode(posts[|posts| - 1]))
  }

  /** The per-post reading of `fetchOrnamentsFromSheet`. */
  function Decoder(parse: string -> Option<Metadata>): PostListItem -> Option<PlacedOrnament>
  {
    post => DecodePost(post, parse)
  }

  /** Decoding a whole post list: the decodable posts, in list order. */
  function DecodeAll(posts: seq<PostListItem>, parse: string -> Option<Metadata>): seq<PlacedOrnament>
  {
    Collect(posts, Decoder(parse))
  }

  /** Collecting distributes over concatenation: a dropped post does not
      disturb the others, and the order of the list is kept. */
  lemma {:induction false} CollectAppend(a: seq<PostListItem>, b: seq<PostListItem>,
                                         decode: PostListItem -> Option<PlacedOrnament>)
    ensures Collect(a + b, decode) == Collect(a, decode) + Collect(b, decode)
    decreases |b|
  {
    if b == [] {
      assert a + b == a;
    } else {
      assert (a + b)[..|a + b| - 1] == a + b[..|b| - 1];
      assert (a + b)[|a + b| - 1] == b[|b| - 1];
      CollectAppend(a, b[..|b| - 1], decode);
    }
  }

  /** There are never more ornaments than posts. */
  lemma {:induction false} CollectLength(posts: seq<PostListItem>, decode: PostListItem -> Option<PlacedOrnament>)
    ensures |Collect(posts, decode)| <= |posts|
    decreases |posts|
  {
    if posts != [] {
      CollectLength(posts[..|posts| - 1], decode);
    }
  }

  /** Every post that yields an ornament contributes it. */
  lemma {:induction false} CollectKeeps(posts: seq<PostListItem>, decode: PostListItem -> Option<PlacedOrnament>, k: nat)
    requires k < |posts| && decode(posts[k]).Some?
    ensures decode(posts[k]).value in Collect(posts, decode)
    decreases |posts|
  {
    var n := |posts| - 1;
    var init := posts[..n];
    if k < n {
      assert init[k] == posts[k];
      CollectKeeps(init, decode, k);
    }
  }

  /** Every collected ornament comes from some post of the list. */
  lemma {:induction false} CollectFrom(posts: seq<PostListItem>, decode: PostListItem -> Option<PlacedOrnament>,
                                       o: PlacedOrnament)
    requires o in Collect(posts, decode)
    ensures exists k :: 0 <= k < |posts| && decode(posts[k]) == Some(o)
    decreases |posts|
  {
    var n := |posts| - 1;
    var init := posts[..n];
    if o in Collect(init, decode) {
      CollectFrom(init, decode, o);
      var k :| 0 <= k < |init| && decode(init[k]) == Some(o);
      assert posts[k] == init[k];
    } else {
      assert decode(posts[n]) == Some(o);
    }
  }

  /** Posts that yield nothing contribute nothing. */
  lemma {:induction false} CollectNone(posts: seq<PostListItem>, decode: PostListItem -> Option<PlacedOrnament>)
    requires forall k :: 0 <= k < |posts| ==> decode(posts[k]).None?
    ensures Collect(posts, decode) == []
    decreases |posts|
  {
    if posts != [] {
      CollectNone(posts[..|posts| - 1], decode);
    }
  }

  /** A list of plain posts (no separator in any content) yields no ornament. */
  lemma PlainPostsYieldNothing(posts: seq<PostListItem>, parse: string -> Option<Metadata>)
    requires forall k :: 0 <= k < |posts| ==> !Contains(posts[k].content, Separator)
    ensures DecodeAll(posts, parse) == []
  {
    forall k | 0 <= k < |posts|
      ensures Decoder(parse)(posts[k]).None?
    {
      DecodePostCases(posts[k], parse);
    }
    CollectNone(posts, Decoder(parse));
  }

  /** `fetchOrnamentsFromSheet` once the store has answered: walk the posts and
      push every one that decodes. */
  method FetchOrnaments(posts: seq<PostListItem>, parse: string -> Option<Metadata>)
    returns (parsedOrnaments: seq<PlacedOrnament>)
    ensures parsedOrnaments == DecodeAll(posts, parse)
  {
    parsedOrnaments := [];
    for i := 0 to |posts|
      invariant parsedOrnaments == DecodeAll(posts[..i], parse)
    {
      var post := posts[i];
      assert posts[..i + 1][..i] == posts[..i];
      assert Decoder(parse)(post) == DecodePost(post, parse);
      if |post.content| > 0 && Contains(post.content, Separator) {
        var parts := SplitContent(post.content).value;
        var metadata := parse(parts.metadataText);
        if metadata.Some? && metadata.value.x.Some? && metadata.value.y.Some? {
          parsedOrnaments := parsedOrnaments + [PlacedOrnament(
            post.id, post.name, post.name, post.affiliation, metadata.value.design,
            metadata.value.panelIndex, metadata.value.slotIndex,
            metadata.value.x.value, metadata.value.y.value, parts.message)];
        }
      }
    }
    assert posts[..|posts|] == posts;
  }

  // ---- the post list shown on the comment board ----

  /** The content the comment board shows: an ornament post's message without
      its metadata; a plain post's content unchanged. */
  function StripContent(content: string): (r: string)
    ensures !Contains(content, Separator) ==> r == content
    ensures Contains(content, Separator) ==>
      exists metadataText :: content == EncodeContent(r, metadataText) && !Contains(metadataText, Separator)
  {
    match SplitContent(content)
    case None => content
    case Some(parts) => parts.message
  }

  /** As the client is written: everything from the FIRST separator on is cut. */
  function StripContentAsWritten(content: string): (r: string)
    ensures !Contains(content, Separator) ==> r == content
    ensures !Contains(r, Separator)
    ensures Contains(content, Separator) ==>
      (|r| + |Separator| <= |content| && content[..|r|] == r && IndexOf(content, Separator) == Some(|r|))
  {
    if Contains(content, Separator) then SplitContentAsWritten(content).value.message else content
  }

  /** Stripping recovers the message an ornament post was written with. */
  lemma StripRecoversMessage(message: string, metadataText: string)
    requires !Contains(metadataText, Separator)
    requires metadataText == [] || metadataText[0] != '|'
    ensures StripContent(EncodeContent(message, metadataText)) == message
  {
    ContentRoundTrip(message, metadataText);
  }

  /** The client's strip gives back the message an ornament post was written
      with exactly when `message + "||"` holds no separator; a card text
      ending in '|' comes back cut short. */
  lemma StripRecoversMessageAsWritten(message: string, metadataText: string)
    requires !Contains(metadataText, Separator)
    ensures StripContentAsWritten(EncodeContent(message, metadataText)) == message
        <==> !Contains(message + "||", Separator)
  {
    if Contains(message + "||", Separator) {
      ContentCutShortAsWritten(message, metadataText);
    } else {
      ContentRoundTripAsWritten(message, metadataText);
    }
  }

  /** `getPostList` once the store has answered: every post kept, in order,
      with only its content stripped. */
  function StripPostContents(items: seq<PostListItem>): (r: seq<PostListItem>)
    ensures |r| == |items|
    ensures forall k :: 0 <= k < |r| ==> r[k] == items[k].(content := StripContent(items[k].content))
  {
    seq(|items|, k requires 0 <= k < |items| => items[k].(content := StripContent(items[k].content)))
  }

  // ---- saving an ornament post ----

  /** The body of the `savePost` request. */
  datatype SavePayload = SavePayload(
    action: string,
    name: string,
    affiliation: string,
    interests: string,
    postType: string,
    title: string,
    content: string)

  /** The metadata record written for a placement: both coordinates present. */
  function PlacementMetadata(design: OrnamentDesign, panelIndex: int, slotIndex: int, x: real, y: real): Metadata
  {
    Metadata(design, panelIndex, Some(slotIndex), Some(x), Some(y))
  }

  /** `saveOrnamentToSheet`'s request body: the survey record, the interests
      joined with ", ", the theme as post type, and the content carrying the
      serialised metadata after the separator. */
  function SavePostPayload(u: UserData, design: OrnamentDesign, panelIndex: int, slotIndex: int,
                           x: real, y: real, stringify: Metadata -> string): SavePayload
  {
    SavePayload("savePost", u.name, u.affiliation, Join(u.interests, ", "), u.theme, u.title,
                EncodeContent(u.content, stringify(PlacementMetadata(design, panelIndex, slotIndex, x, y))))
  }

  /** Saving then listing: when the store lists the saved post back under
      some id, and parsing undoes serialising, the post decodes to the
      ornament that was placed, with the survey content as its message, the
      poster's name as user id and name, and the chosen panel, slot and
      coordinates. */
  lemma SaveThenDecode(u: UserData, design: OrnamentDesign, panelIndex: int, slotIndex: int, x: real, y: real,
                       stringify: Metadata -> string, parse: string -> Option<Metadata>, id: string, timestamp: string)
    requires var text := stringify(PlacementMetadata(design, panelIndex, slotIndex, x, y));
      && parse(text) == Some(PlacementMetadata(design, panelIndex, slotIndex, x, y))
      && !Contains(text, Separator)
      && (text == [] || text[0] != '|')
    ensures var p := SavePostPayload(u, design, panelIndex, slotIndex, x, y, stringify);
      DecodePost(PostListItem(id, p.name, p.affiliation, p.title, p.content, timestamp), parse)
        == Some(PlacedOrnament(id, u.name, u.name, u.affiliation, design, panelIndex, Some(slotIndex), x, y, u.content))
  {
    var text := stringify(PlacementMetadata(design, panelIndex, slotIndex, x, y));
    ContentRoundTrip(u.content, text);
    var content := EncodeContent(u.content, text);
    assert OccursAt(content, Separator, |u.content|) by {
      assert content[|u.content|..|u.content| + 3] == Separator;
    }
    ContainsIff(content, Separator, |u.content|);
  }

  /** The interests are sent as one text: the first interest, then each
      further one after ", ". */
  lemma InterestsJoined(interests: seq<string>, next: string)
    ensures Join([], ", ") == ""
    ensures |interests| == 1 ==> Join(interests, ", ") == interests[0]
    ensures |interests| > 0 ==> Join(interests + [next], ", ") == Join(interests, ", ") + ", " + next
  {
    if |interests| > 0 {
      JoinAppend(interests, next, ", ");
    }
  }

  /** The client as written decodes a saved placement back to the placed
      ornament exactly when the card text cannot form a separator with the
      one appended, that is when `u.content + "||"` holds none; otherwise the
      ornament is dropped or comes back with its text cut short. */
  lemma SaveThenDecodeAsWritten(u: UserData, design: OrnamentDesign, panelIndex: int, slotIndex: int, x: real, y: real,
                                stringify: Metadata -> string, parse: string -> Option<Metadata>, id: string, timestamp: string)
    requires var text := stringify(PlacementMetadata(design, panelIndex, slotIndex, x, y));
      && parse(text) == Some(PlacementMetadata(design, panelIndex, slotIndex, x, y))
      && !Contains(text, Separator)
    ensures var p := SavePostPayload(u, design, panelIndex, slotIndex, x, y, stringify);
      DecodePostAsWritten(PostListItem(id, p.name, p.affiliation, p.title, p.content, timestamp), parse)
        == Some(PlacedOrnament(id, u.name, u.name, u.affiliation, design, panelIndex, Some(slotIndex), x, y, u.content))
      <==> !Contains(u.content + "||", Separator)
  {
    var text := stringify(PlacementMetadata(design, panelIndex, slotIndex, x, y));
    var content := EncodeContent(u.content, text);
    if Contains(u.content + "||", Separator) {
      ContentCutShortAsWritten(u.content, text);
    } else {
      ContentRoundTripAsWritten(u.content, text);
    }
  }
}
