/** The blog editor: an eight-field form that is cleared for a new post or
    filled from an existing one, validated on submit, turned into a create
    or an update request with its tags parsed and its read time computed,
    and cleared again once the save went through. */
module BlogManagement {
  import opened Wrappers
  import opened JsStrings
  import opened Seqs
  import opened Chunking

  // ---------------------------------------------------------------------
  // Tags
  // ---------------------------------------------------------------------

  /** `tags.split(',').map(tag => tag.trim()).filter(Boolean)`. */
  function ParseTags(s: string): seq<string>
  {
    Filter(Map(Split(s, ','), Trim), Truthy)
  }

  /** A tag the editor can show and read back unchanged: non-empty, no
      surrounding whitespace, no comma. */
  predicate IsTag(t: string)
  {
    t != "" && !IsSpace(t[0]) && !IsSpace(t[|t| - 1]) && ',' !in t
  }

  /** Trimming a comma-free piece that is not blank gives a tag. */
  lemma TrimmedPieceIsTag(p: string)
    requires ',' !in p && Trim(p) != ""
    ensures IsTag(Trim(p))
  {
    TrimShape(p);
    var a, b :| 0 <= a <= b <= |p| && Trim(p) == p[a..b];
    SliceElements(p, a, b);
  }

  /** Every parsed tag is non-empty and trimmed, and the tags keep the order
      of the comma-separated pieces they come from. */
  lemma ParsedTagsShape(s: string)
    ensures forall i :: 0 <= i < |ParseTags(s)| ==> IsTag(ParseTags(s)[i])
    ensures IsSubsequence(ParseTags(s), Map(Split(s, ','), Trim))
  {
    var split := Split(s, ',');
    var pieces := Map(split, Trim);
    var r := Filter(pieces, Truthy);
    FilterIsOrderedSelection(pieces, Truthy);
    forall i | 0 <= i < |r|
      ensures IsTag(r[i])
    {
      assert r[i] in pieces && r[i] != "";
      var k :| 0 <= k < |pieces| && pieces[k] == r[i];
      assert pieces[k] == Trim(split[k]);
      TrimmedPieceIsTag(split[k]);
    }
  }

  lemma JoinPrefixFirst(x: string, ss: seq<string>, sep: string)
    requires |ss| >= 1
    ensures x + Join(ss, sep) == Join([x + ss[0]] + ss[1..], sep)
  {
    var tt := [x + ss[0]] + ss[1..];
    assert tt[1..] == ss[1..];
  }

  function Spaced(t: string): string
  {
    " " + t
  }

  /** `tags.join(', ')` is the comma join of the tags, each after the first
      with a leading space. */
  lemma {:induction false} JoinCommaSpace(ts: seq<string>)
    requires |ts| >= 1
    ensures Join(ts, ", ") == Join([ts[0]] + Map(ts[1..], Spaced), ",")
  {
    var ss := [ts[0]] + Map(ts[1..], Spaced);
    assert ss[0] == ts[0];
    if |ts| == 1 {
      assert ss == [ts[0]];
    } else {
      var rest := ts[1..];
      JoinCommaSpace(rest);
      var tail := [rest[0]] + Map(rest[1..], Spaced);
      JoinPrefixFirst(" ", tail, ",");
      assert [" " + tail[0]] + tail[1..] == Map(rest, Spaced);
      assert ss[1..] == Map(rest, Spaced);
      assert Join(ss, ",") == ts[0] + "," + Join(ss[1..], ",");
      assert Join(ts, ", ") == ts[0] + ", " + Join(rest, ", ");
    }
  }

  lemma TrimSpaced(t: string)
    requires IsTag(t)
    ensures Trim(Spaced(t)) == t
  {
    var u := Spaced(t);
    assert u[0] == ' ' && u[1..] == t;
    assert TrimStart(t) == t;
    assert TrimStart(u) == t;
    assert TrimEnd(t) == t;
  }

  /** The comma pieces of `tags.join(', ')`, trimmed, are the tags. */
  lemma TrimmedPiecesOfJoin(tags: seq<string>)
    requires |tags| >= 1
    requires forall i :: 0 <= i < |tags| ==> IsTag(tags[i])
    ensures Map(Split(Join(tags, ", "), ','), Trim) == tags
  {
    var ss := [tags[0]] + Map(tags[1..], Spaced);
    JoinCommaSpace(tags);
    SpacedCommaFree(tags, ss);
    SplitJoin(ss, ',');
    TrimSpacedTags(tags, ss);
  }

  lemma SpacedCommaFree(tags: seq<string>, ss: seq<string>)
    requires |tags| >= 1
    requires forall i :: 0 <= i < |tags| ==> IsTag(tags[i])
    requires ss == [tags[0]] + Map(tags[1..], Spaced)
    ensures forall k :: 0 <= k < |ss| ==> ',' !in ss[k]
  {
    forall k | 0 <= k < |ss|
      ensures ',' !in ss[k]
    {
      SpacedCommaFreeAt(tags, ss, k);
    }
  }

  lemma SpacedCommaFreeAt(tags: seq<string>, ss: seq<string>, k: nat)
    requires 0 <= k < |tags|
    requires IsTag(tags[k])
    requires ss == [tags[0]] + Map(tags[1..], Spaced)
    ensures ',' !in ss[k]
  {
    if k > 0 {
      assert ss[k] == Map(tags[1..], Spaced)[k - 1];
      assert tags[1..][k - 1] == tags[k];
      var u := Spaced(tags[k]);
      assert u[0] == ' ' && u[1..] == tags[k];
    }
  }

  lemma {:induction false} TrimSpacedTags(tags: seq<string>, ss: seq<string>)
    requires |tags| >= 1
    requires forall i :: 0 <= i < |tags| ==> IsTag(tags[i])
    requires ss == [tags[0]] + Map(tags[1..], Spaced)
    ensures Map(ss, Trim) == tags
  {
    TrimSpacedAll(tags, ss);
    MapPointwise(ss, Trim, tags);
  }

  lemma TrimSpacedAll(tags: seq<string>, ss: seq<string>)
    requires |tags| >= 1
    requires forall i :: 0 <= i < |tags| ==> IsTag(tags[i])
    requires ss == [tags[0]] + Map(tags[1..], Spaced)
    ensures |ss| == |tags| && forall k :: 0 <= k < |tags| ==> Trim(ss[k]) == tags[k]
  {
    forall k | 0 <= k < |tags|
      ensures Trim(ss[k]) == tags[k]
    {
      TrimSpacedTagAt(tags, ss, k);
    }
  }

  lemma TrimSpacedTagAt(tags: seq<string>, ss: seq<string>, k: nat)
    requires 0 <= k < |tags|
    requires IsTag(tags[k])
    requires ss == [tags[0]] + Map(tags[1..], Spaced)
    ensures Trim(ss[k]) == tags[k]
  {
    if k == 0 {
      TrimOfTrimmed(tags[0]);
    } else {
      assert ss[k] == Map(tags[1..], Spaced)[k - 1];
      assert tags[1..][k - 1] == tags[k];
      TrimSpaced(tags[k]);
    }
  }

  /** Editing a post shows its tags as `tags.join(', ')`; submitting parses
      that text back to exactly the original tags. */
  lemma ParseJoinedTags(tags: seq<string>)
    requires forall i :: 0 <= i < |tags| ==> IsTag(tags[i])
    ensures ParseTags(Join(tags, ", ")) == tags
  {
    if tags == [] {
      assert Join(tags, ", ") == "";
      ParseNoTags();
    } else {
      TrimmedPiecesOfJoin(tags);
      FilterKeepAll(tags, Truthy);
    }
  }

  /** An empty tags field parses to no tags. */
  lemma ParseNoTags()
    ensures ParseTags("") == []
  {
    var pieces := Split("", ',');
    assert FirstIndexOf("", ',') == 0;
    assert pieces == [""];
    var trimmed := Map(pieces, Trim);
    assert trimmed[0] == "";
    assert trimmed == [""];
    assert Filter(trimmed, Truthy) == Filter(trimmed[1..], Truthy);
  }

  // ---------------------------------------------------------------------
  // Read time
  // ---------------------------------------------------------------------

  /** `content.split(/\s+/)`: the pieces between maximal whitespace runs.
      A leading or trailing run yields an empty first or last piece. */
  function SplitWs(s: string): (r: seq<string>)
    ensures |r| >= 1
    decreases |s|
  {
    var i := WordLength(s);
    if i == |s| then [s] else [s[..i]] + SplitWs(s[SpaceRunEnd(s, i)..])
  }

  /** On text with no whitespace at either end the pieces are exactly its
      words. */
  lemma {:induction false} SplitWsOfTrimmed(s: string)
    requires s != [] && !IsSpace(s[0]) && !IsSpace(s[|s| - 1])
    ensures SplitWs(s) == Tokens(s)
    decreases |s|
  {
    var i := WordLength(s);
    if i == |s| {
      SingleWordTokens(s);
    } else {
      var rest := s[SpaceRunEnd(s, i)..];
      SplitWsStep(s);
      SplitWsOfTrimmed(rest);
    }
  }

  /** Text with no whitespace is its own only token. */
  lemma SingleWordTokens(s: string)
    requires s != [] && WordLength(s) == |s|
    ensures Tokens(s) == [s]
  {
    assert s[..|s|] == s && s[|s|..] == [];
    assert Tokens(s) == [s] + Tokens([]);
  }

  /** One word and the whitespace run after it, in both splits, on text
      that ends in a non-space. */
  lemma SplitWsStep(s: string)
    requires s != [] && !IsSpace(s[0]) && !IsSpace(s[|s| - 1]) && WordLength(s) < |s|
    ensures var i := WordLength(s);
            var e := SpaceRunEnd(s, i);
            i < e < |s| && !IsSpace(s[e..][0]) && !IsSpace(s[e..][|s[e..]| - 1]) &&
            SplitWs(s) == [s[..i]] + SplitWs(s[e..]) && Tokens(s) == [s[..i]] + Tokens(s[e..])
  {
    var i := WordLength(s);
    var e := SpaceRunEnd(s, i);
    assert e <= |s| - 1 by {
      assert !IsSpace(s[|s| - 1]);
    }
    assert s[e..][|s[e..]| - 1] == s[|s| - 1];
    WordThenSpaceTokens(s, i, e);
  }

  lemma WordThenSpaceTokens(s: string, i: nat, e: nat)
    requires s != [] && !IsSpace(s[0]) && i == WordLength(s) && i <= e <= |s|
    requires forall k :: i <= k < e ==> IsSpace(s[k])
    ensures Tokens(s) == [s[..i]] + Tokens(s[e..])
  {
    assert Tokens(s) == [s[..i]] + Tokens(s[i..]);
    var w := s[i..e];
    assert IsBlank(w) by {
      forall k | 0 <= k < |w| ensures IsSpace(w[k]) { assert w[k] == s[i + k]; }
    }
    SliceSplit(s, i, e);
    TokensOfBlankPrefix(w, s[e..]);
  }

  const WORDS_PER_MINUTE: nat := 200

  /** `Math.ceil(words / 200)`. */
  function ReadMinutes(words: nat): nat
  {
    (words + WORDS_PER_MINUTE - 1) / WORDS_PER_MINUTE
  }

  /** `calculateReadTime`. */
  function ReadTime(content: string): string
  {
    Decimal(ReadMinutes(|SplitWs(content)|)) + " min read"
  }

  /** The minutes are the least whole number of 200-word blocks that hold
      the words: at most 200 words read in one minute, and more words never
      read faster. */
  lemma ReadMinutesFacts(words: nat, more: nat)
    requires words >= 1
    ensures (ReadMinutes(words) - 1) * WORDS_PER_MINUTE < words <= ReadMinutes(words) * WORDS_PER_MINUTE
    ensures words <= WORDS_PER_MINUTE ==> ReadMinutes(words) == 1
    ensures words <= more ==> ReadMinutes(words) <= ReadMinutes(more)
  {
  }

  /** For content with no whitespace at either end, the read time counts its
      words; every content reads in at least one minute, and the label reads
      back as that number. */
  lemma ReadTimeCountsWords(content: string)
    ensures ReadMinutes(|SplitWs(content)|) >= 1
    ensures content != [] && !IsSpace(content[0]) && !IsSpace(content[|content| - 1]) ==>
              ReadMinutes(|SplitWs(content)|) == ReadMinutes(|Tokens(content)|)
    ensures ReadTime(content) == Decimal(ReadMinutes(|SplitWs(content)|)) + " min read" &&
            FromRadix(Decimal(ReadMinutes(|SplitWs(content)|)), 10) == ReadMinutes(|SplitWs(content)|)
  {
    if content != [] && !IsSpace(content[0]) && !IsSpace(content[|content| - 1]) {
      SplitWsOfTrimmed(content);
    }
    FromToRadix(ReadMinutes(|SplitWs(content)|), 10);
  }

  // ---------------------------------------------------------------------
  // The editor
  // ---------------------------------------------------------------------

  /** The eight form fields. */
  datatype Form = Form(title: string, content: string, excerpt: string, author: string, tags: string,
                       category: string, featuredImage: string, metaDescription: string)

  const EMPTY_FORM: Form := Form("", "", "", "", "", "", "", "")

  /** A post as the editor reads it. */
  datatype Post = Post(id: string, title: string, content: string, excerpt: Option<string>, author: string,
                       tags: seq<string>, category: Option<string>, featuredImage: Option<string>,
                       metaDescription: Option<string>)

  /** The form `handleEditPost` fills in. */
  function FormOf(post: Post): Form
  {
    Form(post.title, post.content, OrEmpty(post.excerpt), post.author, Join(post.tags, ", "),
         OrEmpty(post.category), OrEmpty(post.featuredImage), OrEmpty(post.metaDescription))
  }

  /** The data sent on save: the form, with its tags parsed and its read
      time computed. */
  datatype PostData = PostData(form: Form, tags: seq<string>, readTime: string)

  datatype Request = Create(data: PostData) | Update(id: string, data: PostData)

  /** The reply of the published-posts query. */
  datatype FetchReply = FetchFailed | Fetched(success: bool, data: Option<seq<Post>>)

  /** The editor's state, with every save request issued so far. */
  datatype Screen = Screen(posts: seq<Post>, loading: bool, error: Option<string>, editingPost: Option<Post>,
                           isCreating: bool, formData: Form, requests: seq<Request>)

  const REQUIRED_MESSAGE: string := "Please fill in all required fields"
  const SAVE_MESSAGE: string := "Failed to save blog post"
  const FETCH_MESSAGE: string := "Failed to fetch blog posts"

  function CreatePostSpec(s: Screen): Screen
  {
    s.(isCreating := true, editingPost := None, formData := EMPTY_FORM)
  }

  function EditPostSpec(s: Screen, post: Post): Screen
  {
    s.(editingPost := Some(post), isCreating := false, formData := FormOf(post))
  }

  function CancelSpec(s: Screen): Screen
  {
    s.(editingPost := None, isCreating := false, formData := EMPTY_FORM)
  }

  /** `fetchBlogPosts`: the list is replaced only by a successful reply that
      carries an array; a failed query sets the error. */
  function FetchSpec(s: Screen, reply: FetchReply): Screen
  {
    match reply
      case FetchFailed => s.(loading := false, error := Some(FETCH_MESSAGE))
      case Fetched(success, data) =>
        if success && data.Some? then s.(loading := false, error := None, posts := data.value)
        else s.(loading := false, error := None)
  }

  /** The declared response type has `message`, `result` and `data` but no
      `success`, so a reply of exactly that shape reads `success` as
      `undefined`: the query clears the error and ends loading, and the list
      stays as it was. */
  lemma DeclaredReplyKeepsPosts(s: Screen, data: Option<seq<Post>>)
    ensures FetchSpec(s, Fetched(false, data)) == s.(loading := false, error := None)
    ensures FetchSpec(s, Fetched(false, data)).posts == s.posts
  {
  }

  predicate Complete(f: Form)
  {
    f.title != "" && f.content != "" && f.author != ""
  }

  function PostDataOf(f: Form): PostData
  {
    PostData(f, ParseTags(f.tags), ReadTime(f.content))
  }

  function RequestOf(s: Screen): Request
  {
    match s.editingPost
      case Some(p) => Update(p.id, PostDataOf(s.formData))
      case None => Create(PostDataOf(s.formData))
  }

  /** `handleSubmit`, given whether the save succeeds and the reply of the
      refresh that follows it. */
  function SubmitSpec(s: Screen, saved: bool, reply: FetchReply): Screen
  {
    if !Complete(s.formData) then s.(error := Some(REQUIRED_MESSAGE))
    else
      var sent := s.(requests := s.requests + [RequestOf(s)]);
      if !saved then sent.(error := Some(SAVE_MESSAGE))
      else CancelSpec(FetchSpec(sent, reply))
  }

  /** An incomplete form only sets the error: no request is issued and
      nothing else changes. */
  lemma SubmitRejectsIncomplete(s: Screen, saved: bool, reply: FetchReply)
    requires s.formData.title == "" || s.formData.content == "" || s.formData.author == ""
    ensures SubmitSpec(s, saved, reply) == s.(error := Some(REQUIRED_MESSAGE))
    ensures SubmitSpec(s, saved, reply).requests == s.requests
  {
  }

  /** A complete form issues exactly one request: an update of the post
      being edited, or a create when none is, carrying the form with its
      parsed tags and read time. A successful save leaves an empty form and
      neither editing nor creating; a failed one keeps the form and reports
      the error. */
  lemma SubmitIssuesOneRequest(s: Screen, saved: bool, reply: FetchReply)
    requires Complete(s.formData)
    ensures var r := SubmitSpec(s, saved, reply);
            |r.requests| == |s.requests| + 1 && r.requests[..|s.requests|] == s.requests
    ensures var q := SubmitSpec(s, saved, reply).requests[|s.requests|];
            (q.Update? <==> s.editingPost.Some?) &&
            (q.Update? ==> q.id == s.editingPost.value.id) &&
            q.data == PostData(s.formData, ParseTags(s.formData.tags), ReadTime(s.formData.content))
    ensures saved ==> var r := SubmitSpec(s, saved, reply);
                      r.formData == EMPTY_FORM && r.editingPost.None? && !r.isCreating && !r.loading
    ensures !saved ==> SubmitSpec(s, saved, reply).formData == s.formData &&
                       SubmitSpec(s, saved, reply).error == Some(SAVE_MESSAGE)
  {
    var r := SubmitSpec(s, saved, reply);
    assert (s.requests + [RequestOf(s)])[..|s.requests|] == s.requests;
  }

  /** Editing a post whose tags are well formed and submitting it unchanged
      sends an update of that post with the same title, content, author
      and tags. */
  lemma EditThenSubmit(s: Screen, post: Post, saved: bool, reply: FetchReply)
    requires post.title != "" && post.content != "" && post.author != ""
    requires forall i :: 0 <= i < |post.tags| ==> IsTag(post.tags[i])
    ensures var e := EditPostSpec(s, post);
            var q := SubmitSpec(e, saved, reply).requests[|s.requests|];
            q == Update(post.id, PostData(FormOf(post), post.tags, ReadTime(post.content)))
  {
    ParseJoinedTags(post.tags);
    SubmitIssuesOneRequest(EditPostSpec(s, post), saved, reply);
  }

  /** Starting a new post and cancelling both clear all eight fields;
      starting sets the creating flag, cancelling clears it. */
  lemma CreateAndCancelReset(s: Screen)
    ensures CreatePostSpec(s).formData == CancelSpec(s).formData == Form("", "", "", "", "", "", "", "")
    ensures CreatePostSpec(s).isCreating && !CancelSpec(s).isCreating
    ensures CreatePostSpec(s).editingPost.None? && CancelSpec(s).editingPost.None?
    ensures CancelSpec(CreatePostSpec(s)) == CancelSpec(s)
  {
  }

  class Editor {
    var posts: seq<Post>
    var loading: bool
    var error: Option<string>
    var editingPost: Option<Post>
    var isCreating: bool
    var formData: Form
    /** Every save request issued, in order. */
    var requests: seq<Request>
    /** Every value `loading` has been set to, in order. */
    var loadingFlags: seq<bool>

    function State(): Screen
      reads this
    {
      Screen(posts, loading, error, editingPost, isCreating, formData, requests)
    }

    constructor ()
      ensures State() == Screen([], false, None, None, false, EMPTY_FORM, [])
      ensures loadingFlags == []
    {
      posts := [];
      loading := false;
      error := None;
      editingPost := None;
      isCreating := false;
      formData := EMPTY_FORM;
      requests := [];
      loadingFlags := [];
    }

    /** `handleCreatePost`. */
    method HandleCreatePost()
      modifies this
      ensures State() == CreatePostSpec(old(State()))
      ensures loadingFlags == old(loadingFlags)
    {
      isCreating := true;
      editingPost := None;
      formData := EMPTY_FORM;
    }

    /** `handleEditPost`. */
    method HandleEditPost(post: Post)
      modifies this
      ensures State() == EditPostSpec(old(State()), post)
      ensures loadingFlags == old(loadingFlags)
    {
      editingPost := Some(post);
      isCreating := false;
      formData := FormOf(post);
    }

    /** `handleCancel`. */
    method HandleCancel()
      modifies this
      ensures State() == CancelSpec(old(State()))
      ensures loadingFlags == old(loadingFlags)
    {
      editingPost := None;
      isCreating := false;
      formData := EMPTY_FORM;
    }

    /** `fetchBlogPosts`, given the reply of the query. */
    method FetchBlogPosts(reply: FetchReply)
      modifies this
      ensures State() == FetchSpec(old(State()), reply)
      ensures loadingFlags == old(loadingFlags) + [true, false]
    {
      loading := true;
      loadingFlags := loadingFlags + [true];
      error := None;
      match reply {
        case FetchFailed =>
          error := Some(FETCH_MESSAGE);
        case Fetched(success, data) =>
          if success && data.Some? {
            posts := data.value;
          }
      }
      loading := false;
      loadingFlags := loadingFlags + [false];
    }

    /** The request `handleSubmit` sends for a complete form: an update of
        the post being edited, or a create. */
    method IssueRequest()
      modifies this
      ensures State() == old(State()).(requests := old(requests) + [RequestOf(old(State()))])
      ensures loadingFlags == old(loadingFlags)
    {
      var postData := PostData(formData, ParseTags(formData.tags), ReadTime(formData.content));
      if editingPost.Some? {
        requests := requests + [Update(editingPost.value.id, postData)];
      } else {
        requests := requests + [Create(postData)];
      }
    }

    /** `handleSubmit`, given whether the save succeeds and the reply of the
        refresh. */
    method HandleSubmit(saved: bool, reply: FetchReply)
      modifies this
      ensures State() == SubmitSpec(old(State()), saved, reply)
      ensures Complete(old(formData)) && saved ==> loadingFlags == old(loadingFlags) + [true, false]
      ensures !(Complete(old(formData)) && saved) ==> loadingFlags == old(loadingFlags)
    {
      if formData.title == "" || formData.content == "" || formData.author == "" {
        error := Some(REQUIRED_MESSAGE);
        return;
      }
      ghost var sent := State().(requests := requests + [RequestOf(State())]);
      IssueRequest();
      assert State() == sent;
      if !saved {
        error := Some(SAVE_MESSAGE);
        return;
      }
      FetchBlogPosts(reply);
      HandleCancel();
    }
  }
}
