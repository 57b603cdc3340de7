/** The blog-comment store: the in-memory list of comments, the validation and
    appending of a submitted comment, the "helpful" counter and the newest-first
    listing of one post's comments. */
module CommentActions {
  import opened Common

  /** The fields of a comment these operations read or write. `date` is the time
      value `new Date(date).getTime()` gives for the stored day; the optional
      avatar, user id and replies are left out. */
  datatype Comment = Comment(id: int, blogPostId: JsNumber, userName: string,
                             userEmail: string, comment: string, date: int, helpful: int)

  /** The submitted form: `formData.get(name)`, None where the field is absent. */
  datatype CommentForm = CommentForm(blogPostId: Option<string>, userName: Option<string>,
                                     userEmail: Option<string>, comment: Option<string>)

  const AllFieldsRequired := "All fields are required"
  const InvalidEmail := "Please enter a valid email address"

  /** `Number(formData.get("blogPostId"))`: an absent field is `null`, which is 0. */
  function BlogPostNumber(v: Option<string>): (n: JsNumber)
    ensures v.None? ==> !Truthy(n)
  {
    if v.Some? then StringToNumber(v.value) else Finite(0.0)
  }

  /** `===` on numbers: NaN equals nothing. */
  predicate StrictEquals(a: JsNumber, b: JsNumber) {
    !a.NaN? && a == b
  }

  predicate TruthyText(v: Option<string>) {
    v.Some? && v.value != ""
  }

  // ---------------------------------------------------------------------------
  // The e-mail pattern /^[^\s@]+@[^\s@]+\.[^\s@]+$/
  // ---------------------------------------------------------------------------

  /** `[^\s@]+`: a non-empty run without white space or "@". */
  predicate Segment(x: string) {
    x != [] && forall k :: 0 <= k < |x| ==> !IsJsSpace(x[k]) && x[k] != '@'
  }

  /** The whole string is a segment, "@", a segment, ".", a segment. */
  predicate EmailPattern(s: string) {
    exists i, j :: 0 < i < j < |s| && EmailSplit(s, i, j)
  }

  /** The "@" is at i and the "." at j, with a segment before, between and after. */
  predicate EmailSplit(s: string, i: int, j: int) {
    && 0 < i && i + 1 < j && j + 1 < |s| && s[i] == '@' && s[j] == '.'
    && Segment(s[..i]) && Segment(s[i + 1..j]) && Segment(s[j + 1..])
  }

  /** Any three segments joined by "@" and "." match. */
  lemma SegmentsMakeEmail(local: string, domain: string, top: string)
    requires Segment(local) && Segment(domain) && Segment(top)
    ensures EmailPattern(local + "@" + domain + "." + top)
  {
    var s := local + "@" + domain + "." + top;
    var i, j := |local|, |local| + 1 + |domain|;
    assert s[..i] == local && s[i + 1..j] == domain && s[j + 1..] == top;
    assert EmailSplit(s, i, j);
  }

  /** A matching address holds exactly one "@", and not at its start. */
  lemma EmailHasOneAt(s: string)
    requires EmailPattern(s)
    ensures exists i :: 0 < i < |s| && s[i] == '@' && forall k :: 0 <= k < |s| && s[k] == '@' ==> k == i
  {
    var i, j :| 0 < i < j < |s| && EmailSplit(s, i, j);
    assert s[..i] == s[0..i] && s[j + 1..] == s[j + 1..|s|];
    NoAtWithin(s, 0, i);
    NoAtWithin(s, i + 1, j);
    NoAtWithin(s, j + 1, |s|);
    assert forall k :: 0 <= k < |s| && k != i ==> s[k] != '@';
  }

  /** A segment cut out of a string has no "@" at any of its positions. */
  lemma NoAtWithin(s: string, lo: nat, hi: nat)
    requires lo <= hi <= |s| && Segment(s[lo..hi])
    ensures forall k :: lo <= k < hi ==> s[k] != '@'
  {
    forall k | lo <= k < hi ensures s[k] != '@' {
      assert s[lo..hi][k - lo] == s[k];
    }
  }

  /** A matching address has no white space at either end, so trimming it, as
      `submitComment` does before storing it, changes nothing. */
  lemma EmailUntouchedByTrim(s: string)
    requires EmailPattern(s)
    ensures Trim(s) == s
  {
    var i, j :| 0 < i < j < |s| && EmailSplit(s, i, j);
    assert s[..i][0] == s[0];
    assert s[j + 1..][|s| - j - 2] == s[|s| - 1];
    TrimUnpadded(s);
  }

  // ---------------------------------------------------------------------------
  // Validation
  // ---------------------------------------------------------------------------

  /** The values of a form that passed validation, before trimming. */
  datatype Submission = Submission(blogPostId: JsNumber, userName: string, userEmail: string, comment: string)

  datatype Validated = Accepted(submission: Submission) | Rejected(error: string)

  predicate RequiredPresent(form: CommentForm) {
    TruthyText(form.userName) && TruthyText(form.userEmail) && TruthyText(form.comment)
    && Truthy(BlogPostNumber(form.blogPostId))
  }

  /** The two checks of `submitComment`, in order: every field present and truthy,
      then the e-mail pattern on the address as given. */
  function ValidateComment(form: CommentForm): (r: Validated)
    ensures r == Rejected(AllFieldsRequired) <==> !RequiredPresent(form)
    ensures r == Rejected(InvalidEmail) <==> RequiredPresent(form) && !EmailPattern(form.userEmail.value)
    ensures r.Rejected? ==> r.error in {AllFieldsRequired, InvalidEmail}
    ensures r.Accepted? ==>
              && r.submission.blogPostId == BlogPostNumber(form.blogPostId) && Truthy(r.submission.blogPostId)
              && Some(r.submission.userName) == form.userName && r.submission.userName != ""
              && Some(r.submission.userEmail) == form.userEmail && EmailPattern(r.submission.userEmail)
              && Some(r.submission.comment) == form.comment && r.submission.comment != ""
  {
    if !RequiredPresent(form) then Rejected(AllFieldsRequired)
    else if !EmailPattern(form.userEmail.value) then Rejected(InvalidEmail)
    else Accepted(Submission(BlogPostNumber(form.blogPostId), form.userName.value,
                             form.userEmail.value, form.comment.value))
  }

  /** The comment stored for an accepted submission: the clock's reading as id,
      today's date, the texts trimmed and no helpful votes. */
  function NewComment(now: int, today: int, s: Submission): Comment {
    Comment(now, s.blogPostId, Trim(s.userName), Trim(s.userEmail), Trim(s.comment), today, 0)
  }

  /** The stored address is the one given: the pattern already excludes the white
      space that trimming would remove. */
  lemma StoredEmailAsGiven(form: CommentForm, now: int, today: int)
    requires ValidateComment(form).Accepted?
    ensures NewComment(now, today, ValidateComment(form).submission).userEmail == form.userEmail.value
  {
    EmailUntouchedByTrim(form.userEmail.value);
  }

  /** A name of only white space is truthy, so it passes the required-field check,
      and is stored empty. */
  lemma BlankNameStoredEmpty(form: CommentForm, now: int, today: int)
    requires ValidateComment(form).Accepted?
    requires AllSpace(form.userName.value)
    ensures NewComment(now, today, ValidateComment(form).submission).userName == ""
  {
    TrimEmptyIffAllSpace(form.userName.value);
  }

  /** A well-formed form with a post number written as a decimal numeral is
      accepted with that post number. */
  lemma NumeralPostAccepted(postId: nat, userName: string, local: string, domain: string,
                            top: string, comment: string)
    requires postId > 0 && userName != "" && comment != ""
    requires Segment(local) && Segment(domain) && Segment(top)
    ensures var email := local + "@" + domain + "." + top;
            var form := CommentForm(Some(NatToString(postId)), Some(userName), Some(email), Some(comment));
            ValidateComment(form) == Accepted(Submission(Finite(postId as real), userName, email, comment))
  {
    NumeralNumber(postId);
    SegmentsMakeEmail(local, domain, top);
  }

  // ---------------------------------------------------------------------------
  // Spec functions on the list
  // ---------------------------------------------------------------------------

  function CommentId(c: Comment): int {
    c.id
  }

  function CommentDate(c: Comment): int {
    c.date
  }

  /** `comments.filter(comment => comment.blogPostId === blogPostId)`. */
  function ForPost(comments: seq<Comment>, blogPostId: JsNumber): (r: seq<Comment>)
    ensures |r| <= |comments|
    ensures forall c :: c in r <==> c in comments && StrictEquals(c.blogPostId, blogPostId)
  {
    if comments == [] then []
    else
      var rest := ForPost(comments[1..], blogPostId);
      assert forall c :: c in comments <==> c == comments[0] || c in comments[1..];
      if StrictEquals(comments[0].blogPostId, blogPostId) then [comments[0]] + rest else rest
  }

  /** `getComments`: the post's comments, newest date first; comments of the same
      day keep their stored order. */
  function CommentsFor(comments: seq<Comment>, blogPostId: JsNumber): (r: seq<Comment>)
    ensures SortedDesc(r, CommentDate)
    ensures multiset(r) == multiset(ForPost(comments, blogPostId))
  {
    SortDesc(ForPost(comments, blogPostId), CommentDate)
  }

  /** The listing holds exactly the comments of that post. */
  lemma ListingMembers(comments: seq<Comment>, blogPostId: JsNumber, c: Comment)
    ensures c in CommentsFor(comments, blogPostId) <==> c in comments && StrictEquals(c.blogPostId, blogPostId)
  {
    var r := CommentsFor(comments, blogPostId);
    assert c in r <==> c in multiset(r);
    assert c in ForPost(comments, blogPostId) <==> c in multiset(ForPost(comments, blogPostId));
  }

  /** Appending a comment appends it to its own post's filtered list and to no
      other. */
  lemma {:induction false} ForPostAppend(comments: seq<Comment>, c: Comment, blogPostId: JsNumber)
    ensures ForPost(comments + [c], blogPostId)
            == ForPost(comments, blogPostId) + (if StrictEquals(c.blogPostId, blogPostId) then [c] else [])
  {
    if comments != [] {
      assert (comments + [c])[1..] == comments[1..] + [c];
      ForPostAppend(comments[1..], c, blogPostId);
    }
  }

  /** `comment.helpful += 1` on the list as a value: None when no comment has the id. */
  function MarkHelpful(comments: seq<Comment>, commentId: int): (r: Option<seq<Comment>>)
    ensures r.None? <==> !HasKey(comments, CommentId, commentId)
    ensures r.Some? ==> |r.value| == |comments|
    ensures r.Some? ==> forall k :: 0 <= k < |comments| ==>
              r.value[k] == (if k == FindKey(comments, CommentId, commentId)
                             then comments[k].(helpful := comments[k].helpful + 1) else comments[k])
  {
    var i := FindKey(comments, CommentId, commentId);
    if i == -1 then None else Some(comments[i := comments[i].(helpful := comments[i].helpful + 1)])
  }

  /** The ids of a post's comments, in stored order. */
  function PostIds(comments: seq<Comment>, blogPostId: JsNumber): seq<int> {
    if comments == [] then []
    else (if StrictEquals(comments[0].blogPostId, blogPostId) then [comments[0].id] else [])
         + PostIds(comments[1..], blogPostId)
  }

  /** A helpful vote leaves every post's comments, and their order, as they were. */
  lemma {:induction false} HelpfulKeepsPostIds(comments: seq<Comment>, i: nat, blogPostId: JsNumber)
    requires i < |comments|
    ensures PostIds(comments[i := comments[i].(helpful := comments[i].helpful + 1)], blogPostId)
            == PostIds(comments, blogPostId)
  {
    var bumped := comments[i := comments[i].(helpful := comments[i].helpful + 1)];
    if i > 0 {
      assert bumped[1..] == comments[1..][i - 1 := comments[i].(helpful := comments[i].helpful + 1)];
      HelpfulKeepsPostIds(comments[1..], i - 1, blogPostId);
    } else {
      assert bumped[1..] == comments[1..];
    }
  }

  // ---------------------------------------------------------------------------
  // The store
  // ---------------------------------------------------------------------------

  datatype SubmitResult = Submitted(comment: Comment) | SubmitFailed(error: string)
  datatype HelpfulResult = HelpfulCount(helpful: int) | CommentNotFound

  /** The module-level `mockComments` array. */
  class CommentStore {
    var comments: seq<Comment>

    constructor(initial: seq<Comment>)
      ensures comments == initial
    {
      comments := initial;
    }

    /** `submitComment`, with the clock's reading and today's date as parameters:
        a rejected form changes nothing; an accepted one is appended. */
    method SubmitComment(form: CommentForm, now: int, today: int) returns (result: SubmitResult)
      modifies this
      ensures ValidateComment(form).Rejected? ==>
                result == SubmitFailed(ValidateComment(form).error) && comments == old(comments)
      ensures ValidateComment(form).Accepted? ==>
                var c := NewComment(now, today, ValidateComment(form).submission);
                result == Submitted(c) && comments == old(comments) + [c]
    {
      var v := ValidateComment(form);
      if v.Rejected? {
        return SubmitFailed(v.error);
      }
      var c := NewComment(now, today, v.submission);
      comments := comments + [c];
      result := Submitted(c);
    }

    /** `getComments`. */
    method GetComments(blogPostId: JsNumber) returns (result: seq<Comment>)
      ensures result == CommentsFor(comments, blogPostId)
    {
      result := CommentsFor(comments, blogPostId);
    }

    /** `markCommentHelpful`: adds one vote to the first comment with the id and
        returns its new count; an unknown id changes nothing. */
    method MarkCommentHelpful(commentId: int) returns (result: HelpfulResult)
      modifies this
      ensures MarkHelpful(old(comments), commentId).None? ==>
                result == CommentNotFound && comments == old(comments)
      ensures MarkHelpful(old(comments), commentId).Some? ==>
                comments == MarkHelpful(old(comments), commentId).value
                && result == HelpfulCount(comments[FindKey(old(comments), CommentId, commentId)].helpful)
    {
      var i := FindKey(comments, CommentId, commentId);
      if i == -1 {
        return CommentNotFound;
      }
      comments := comments[i := comments[i].(helpful := comments[i].helpful + 1)];
      result := HelpfulCount(comments[i].helpful);
    }
  }
}
