/** The comment board: the list of posts, one opened post with its comments,
    and the form for answering it. Loading a list is split into the request
    (a state change) and its completion, whose data arrives as a parameter. */
module CommentBoard {
  import opened Wrappers
  import opened Text
  import opened Types
  import opened Guards

  const Sending: string := "전송 중..."
  const Sent: string := "전송 완료!"
  const SendFailed: string := "전송 실패"

  /** Why a comment is not sent. */
  datatype SendError = NoPost | NameMissing | AffiliationMissing | ContentMissing

  /** The checks of `handleSendComment`, in the order they are made. */
  function SendChecks(selected: Option<PostListItem>, name: string, affiliation: string, content: string): seq<Check<SendError>>
  {
    [ Check(selected.Some?, NoPost),
      Check(!IsBlank(name), NameMissing),
      Check(affiliation != "", AffiliationMissing),
      Check(!IsBlank(content), ContentMissing) ]
  }

  /** `handleSendComment`'s early returns: a comment is sent only with an
      opened post, a non-blank nickname, an affiliation and a non-blank text. */
  function ValidateSend(selected: Option<PostListItem>, name: string, affiliation: string, content: string): (r: Verdict<SendError>)
    ensures r.Proceed? <==> selected.Some? && !IsBlank(name) && affiliation != "" && !IsBlank(content)
  {
    if selected.None? then Blocked(NoPost)
    else if IsBlank(name) then Blocked(NameMissing)
    else if affiliation == "" then Blocked(AffiliationMissing)
    else if IsBlank(content) then Blocked(ContentMissing)
    else Proceed
  }

  /** The chain reports the first failing check of the list, in the order
      post, nickname, affiliation, text. */
  lemma ValidateSendIsFirstFailure(selected: Option<PostListItem>, name: string, affiliation: string, content: string)
    ensures ValidateSend(selected, name, affiliation, content) == FirstFailure(SendChecks(selected, name, affiliation, content))
  {
    var checks := SendChecks(selected, name, affiliation, content);
    FirstFailureOfFour(checks[0], checks[1], checks[2], checks[3]);
  }

  class Board {
    var posts: seq<PostListItem>
    var loading: bool
    var selectedPost: Option<PostListItem>
    var comments: seq<Comment>
    var commentLoading: bool
    var commentName: string
    var commentAffiliation: string
    var commentContent: string
    var sending: bool
    var sendStatus: string

    /** The board opens with the post list loading and no post opened. */
    constructor()
      ensures posts == [] && loading && selectedPost.None? && comments == [] && !commentLoading
      ensures commentName == "" && commentAffiliation == "" && commentContent == ""
      ensures !sending && sendStatus == ""
    {
      posts := [];
      loading := true;
      selectedPost := None;
      comments := [];
      commentLoading := false;
      commentName := "";
      commentAffiliation := "";
      commentContent := "";
      sending := false;
      sendStatus := "";
    }

    /** `fetchPosts` completes with the (stripped) post list. */
    method PostsLoaded(data: seq<PostListItem>)
      modifies this
      ensures posts == data && !loading
      ensures selectedPost == old(selectedPost) && comments == old(comments) && commentLoading == old(commentLoading)
      ensures commentName == old(commentName) && commentAffiliation == old(commentAffiliation)
      ensures commentContent == old(commentContent) && sending == old(sending) && sendStatus == old(sendStatus)
    {
      posts := data;
      loading := false;
    }

    /** `handlePostClick` up to the request for the comments: the post is
        opened and the previous comments, the form and the status are
        cleared. */
    method SelectPost(post: PostListItem)
      modifies this
      ensures selectedPost == Some(post) && comments == [] && commentLoading
      ensures commentName == "" && commentAffiliation == "" && commentContent == "" && sendStatus == ""
      ensures posts == old(posts) && loading == old(loading) && sending == old(sending)
    {
      selectedPost := Some(post);
      comments := [];
      commentName := "";
      commentAffiliation := "";
      commentContent := "";
      sendStatus := "";
      commentLoading := true;
    }

    /** The comments of the opened post arrive. */
    method CommentsLoaded(fetched: seq<Comment>)
      modifies this
      ensures comments == fetched && !commentLoading
      ensures selectedPost == old(selectedPost) && posts == old(posts) && loading == old(loading)
      ensures commentName == old(commentName) && commentAffiliation == old(commentAffiliation)
      ensures commentContent == old(commentContent) && sending == old(sending) && sendStatus == old(sendStatus)
    {
      comments := fetched;
      commentLoading := false;
    }

    /** Closing the opened post (the backdrop or the close button). */
    method ClosePost()
      modifies this
      ensures selectedPost.None?
      ensures posts == old(posts) && loading == old(loading) && comments == old(comments)
      ensures commentLoading == old(commentLoading) && commentName == old(commentName)
      ensures commentAffiliation == old(commentAffiliation) && commentContent == old(commentContent)
      ensures sending == old(sending) && sendStatus == old(sendStatus)
    {
      selectedPost := None;
    }

    /** `handleSendComment` as one step; `saveSucceeded` is the store's answer
        and `refreshed` the comments fetched again after a success. A refused
        comment changes nothing. A sent one clears the text and keeps the
        nickname and affiliation; a failed one keeps the text. Either way the
        board is no longer sending. */
    method SendComment(saveSucceeded: bool, refreshed: seq<Comment>) returns (verdict: Verdict<SendError>)
      modifies this
      ensures verdict == ValidateSend(old(selectedPost), old(commentName), old(commentAffiliation), old(commentContent))
      ensures verdict.Blocked? ==> (sending == old(sending) && sendStatus == old(sendStatus)
        && commentContent == old(commentContent) && comments == old(comments))
      ensures verdict.Proceed? && saveSucceeded ==> sendStatus == Sent && commentContent == "" && comments == refreshed
      ensures verdict.Proceed? && !saveSucceeded ==> sendStatus == SendFailed && commentContent == old(commentContent) && comments == old(comments)
      ensures verdict.Proceed? ==> !sending
      ensures commentName == old(commentName) && commentAffiliation == old(commentAffiliation)
      ensures selectedPost == old(selectedPost) && posts == old(posts) && loading == old(loading)
      ensures commentLoading == old(commentLoading)
    {
      verdict := ValidateSend(selectedPost, commentName, commentAffiliation, commentContent);
      if verdict.Blocked? {
        return;
      }
      sending := true;
      sendStatus := Sending;
      if saveSucceeded {
        sendStatus := Sent;
        commentContent := "";
        comments := refreshed;
      } else {
        sendStatus := SendFailed;
      }
      sending := false;
    }
  }
}
