/** Comments on a survey: the comment panel on the survey page (client) and
    `POST /api/comments` (server). The client trims the text and refuses an
    empty one; the server only checks that both fields are non-empty. */
module Comments {
  import opened SurveyTypes

  /** The characters `String.prototype.trim` removes: ECMAScript white space
      (including every space separator such as U+3000) and line terminators. */
  predicate IsSpace(c: char)
  {
    c == '\t' || c == '\n' || c == '\U{000B}' || c == '\U{000C}' || c == '\r' || c == ' '
    || c == '\U{00A0}' || c == '\U{1680}' || ('\U{2000}' <= c <= '\U{200A}')
    || c == '\U{2028}' || c == '\U{2029}' || c == '\U{202F}' || c == '\U{205F}'
    || c == '\U{3000}' || c == '\U{FEFF}'
  }

  ghost predicate AllSpace(s: string)
  {
    forall i :: 0 <= i < |s| ==> IsSpace(s[i])
  }

  /** Number of leading white-space characters. */
  function LeadingSpace(s: string): (n: nat)
    ensures n <= |s|
    ensures AllSpace(s[..n])
    ensures n < |s| ==> !IsSpace(s[n])
  {
    if s == [] || !IsSpace(s[0]) then 0
    else
      var n := LeadingSpace(s[1..]);
      assert s[..n + 1] == [s[0]] + s[1..][..n];
      n + 1
  }

  /** Number of trailing white-space characters. */
  function TrailingSpace(s: string): (n: nat)
    ensures n <= |s|
    ensures AllSpace(s[|s| - n..])
    ensures n < |s| ==> !IsSpace(s[|s| - n - 1])
  {
    if s == [] || !IsSpace(s[|s| - 1]) then 0
    else
      var n := TrailingSpace(s[..|s| - 1]);
      assert s[|s| - n - 1..] == s[..|s| - 1][|s| - 1 - n..] + [s[|s| - 1]];
      n + 1
  }

  /** `s.trim()`: the text between the leading and the trailing white space. */
  function Trim(s: string): (t: string)
    ensures |t| <= |s|
  {
    var a := LeadingSpace(s);
    var b := TrailingSpace(s[a..]);
    s[a..][..|s[a..]| - b]
  }

  /** The trimmed text is a piece of the input with only white space around
      it, and it neither starts nor ends with white space. */
  lemma TrimShape(s: string)
    ensures exists i :: 0 <= i <= |s| - |Trim(s)|
              && s[i..i + |Trim(s)|] == Trim(s) && AllSpace(s[..i]) && AllSpace(s[i + |Trim(s)|..])
    ensures Trim(s) != [] ==> !IsSpace(Trim(s)[0]) && !IsSpace(Trim(s)[|Trim(s)| - 1])
  {
    var a := LeadingSpace(s);
    var r := s[a..];
    var b := TrailingSpace(r);
    var t := Trim(s);
    assert t == s[a..a + |t|];
    assert s[a + |t|..] == r[|r| - b..];
    if t != [] {
      assert t[0] == r[0];
    }
  }

  /** The trimmed text is empty exactly when the input is all white space. */
  lemma TrimEmptyIffAllSpace(s: string)
    ensures Trim(s) == [] <==> AllSpace(s)
  {
    var a := LeadingSpace(s);
    if a < |s| {
      assert !IsSpace(s[a]);
      var r := s[a..];
      assert r[0] == s[a];
      assert TrailingSpace(r) < |r|;
    } else {
      assert s[..a] == s;
    }
  }

  /** Trimming twice changes nothing more. */
  lemma TrimIdempotent(s: string)
    ensures Trim(Trim(s)) == Trim(s)
  {
    var t := Trim(s);
    TrimShape(s);
    if t != [] {
      assert LeadingSpace(t) == 0;
      assert TrailingSpace(t) == 0;
      assert t[0..][..|t| - 0] == t;
    }
  }

  /** The comment as the server returns it (its generated id, timestamp and
      author profile are not modelled). */
  datatype Comment = Comment(content: string, surveyId: string, userId: string)

  /** The JSON body `{ surveyId, content }`; a missing field is None. */
  datatype CommentBody = CommentBody(surveyId: Option<string>, content: Option<string>)

  datatype Reply =
    | Unauthorized        // 401
    | MissingFields       // 400 "Missing required fields"
    | ServerError         // 500, the body is not JSON
    | Created(comment: Comment)

  /** The comment table of the server. */
  class CommentStore {
    var comments: seq<Comment>

    constructor ()
      ensures comments == []
    {
      comments := [];
    }

    /** `POST /api/comments`. `session` is the signed-in user's id; `body` is
        None when the request body is not JSON. */
    method Post(session: Option<string>, body: Option<CommentBody>) returns (reply: Reply)
      modifies this
      ensures session.None? ==> reply == Unauthorized && comments == old(comments)
      ensures session.Some? && body.None? ==> reply == ServerError && comments == old(comments)
      ensures session.Some? && body.Some? && !(Truthy(body.value.surveyId) && Truthy(body.value.content)) ==>
                reply == MissingFields && comments == old(comments)
      ensures session.Some? && body.Some? && Truthy(body.value.surveyId) && Truthy(body.value.content) ==>
                var c := Comment(body.value.content.value, body.value.surveyId.value, session.value);
                reply == Created(c) && comments == old(comments) + [c]
    {
      if session.None? {
        return Unauthorized;
      }
      if body.None? {
        return ServerError;
      }
      if !Truthy(body.value.surveyId) || !Truthy(body.value.content) {
        return MissingFields;
      }
      var c := Comment(body.value.content.value, body.value.surveyId.value, session.value);
      comments := comments + [c];
      reply := Created(c);
    }
  }

  /** The server does not trim: a comment of white space only is stored. */
  method WhitespaceCommentStored(userId: string, surveyId: string) returns (reply: Reply)
    requires surveyId != ""
    ensures reply == Created(Comment(" ", surveyId, userId))
  {
    var store := new CommentStore();
    reply := store.Post(Some(userId), Some(CommentBody(Some(surveyId), Some(" "))));
  }

  /** What the panel did on one submit. */
  datatype SubmitOutcome =
    | Ignored                              // the guard returned early
    | Posted(request: CommentBody)         // sent, and the reply was OK
    | Failed(request: CommentBody)         // sent, and the alert was shown

  /** The comment panel of one survey. */
  class CommentPanel {
    const surveyId: string
    const signedIn: bool
    var comments: seq<Comment>
    var newComment: string
    var isSubmitting: bool

    constructor (surveyId: string, signedIn: bool, initialComments: seq<Comment>)
      ensures this.surveyId == surveyId && this.signedIn == signedIn
      ensures comments == initialComments && newComment == "" && !isSubmitting
    {
      this.surveyId := surveyId;
      this.signedIn := signedIn;
      comments := initialComments;
      newComment := "";
      isSubmitting := false;
    }

    /** The text area's change handler. */
    method Edit(text: string)
      modifies this`newComment
      ensures newComment == text
    {
      newComment := text;
    }

    /** `handleSubmit`. `reply` is the comment the server returned, None when
        the response was not OK or the request failed. */
    method HandleSubmit(reply: Option<Comment>) returns (outcome: SubmitOutcome)
      modifies this
      ensures !signedIn || Trim(old(newComment)) == "" || old(isSubmitting) ==>
                outcome == Ignored && comments == old(comments) && newComment == old(newComment)
                && isSubmitting == old(isSubmitting)
      ensures signedIn && Trim(old(newComment)) != "" && !old(isSubmitting) ==>
                var request := CommentBody(Some(surveyId), Some(Trim(old(newComment))));
                && !isSubmitting
                && (reply.Some? ==> outcome == Posted(request) && comments == [reply.value] + old(comments)
                                    && newComment == "")
                && (reply.None? ==> outcome == Failed(request) && comments == old(comments)
                                    && newComment == old(newComment))
    {
      if !signedIn || Trim(newComment) == "" || isSubmitting {
        return Ignored;
      }
      isSubmitting := true;
      var request := CommentBody(Some(surveyId), Some(Trim(newComment)));
      if reply.Some? {
        comments := [reply.value] + comments;
        newComment := "";
        outcome := Posted(request);
      } else {
        outcome := Failed(request);
      }
      isSubmitting := false;
    }
  }

  /** A request the panel sends passes the server's field check: its content
      is non-empty and carries no surrounding white space. */
  lemma PanelRequestsPassServerCheck(surveyId: string, text: string)
    requires surveyId != "" && Trim(text) != ""
    ensures var request := CommentBody(Some(surveyId), Some(Trim(text)));
            Truthy(request.surveyId) && Truthy(request.content)
            && !IsSpace(request.content.value[0]) && !IsSpace(request.content.value[|request.content.value| - 1])
  {
    TrimShape(text);
  }
}
