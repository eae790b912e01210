/** `SkySplitter`: the application object behind the editor. It keeps the
    posts of the last split, the editor's text, the character-count label and
    the split button's state, and posts a split text as a reply chain through
    its `BlueskyClient`. */
module App {
  import opened Wrappers
  import opened JsText
  import opened Splitter
  import opened SplitterProps
  import opened LinkDetection
  import opened Bluesky

  /** The pause after each accepted post, in milliseconds. */
  const RATE_LIMIT_DELAY: nat := 2000

  datatype NoticeKind = Success | Failure

  /** A notification shown to the user. */
  datatype Notice = Notice(message: string, kind: NoticeKind)

  /** `s` ends with `t`. */
  predicate EndsWith(s: string, t: string)
  {
    |t| <= |s| && s[|s| - |t|..] == t
  }

  /** The text of the character-count label for a text of n code units: a
      numeral followed by " characters". */
  function CharCountLabel(n: nat): (shown: string)
    ensures |shown| > 11 && EndsWith(shown, " characters")
  {
    Decimal(n) + " characters"
  }

  /** The label states the count: it is a numeral followed by " characters",
      and the numeral reads back as n. */
  lemma CharCountLabelReadsBack(n: nat)
    ensures var shown := CharCountLabel(n);
      && |shown| > 11
      && shown[|shown| - 11..] == " characters"
      && (forall i :: 0 <= i < |shown| - 11 ==> IsDigit(shown[i]))
      && ParseDecimal(shown[..|shown| - 11]) == n
  {
    var shown := CharCountLabel(n);
    assert shown[..|shown| - 11] == Decimal(n);
    ParseDecimalOfDecimal(n);
  }

  /** Among the first n calls to `agent.post`, the number that are accepted
      before the first rejection. */
  function Accepted(env: nat -> Environment, n: nat): (m: nat)
    ensures m <= n
    ensures forall j :: 0 <= j < m ==> env(j).response.Posted?
    ensures m < n ==> env(m).response.Rejected?
  {
    if n == 0 then 0
    else
      var m := Accepted(env, n - 1);
      if m == n - 1 && env(n - 1).response.Posted? then n else m
  }

  /** The address of an accepted post. */
  function AnchorOf(r: AgentResponse): Anchor
    requires r.Posted?
  {
    Anchor(r.uri, r.cid)
  }

  /** The record submitted for post i of the thread: its text, no embed, and
      for every post after the first a reply whose root is the first post and
      whose parent is the post just before it. */
  function ThreadPayload(posts: seq<string>, env: nat -> Environment, i: nat): Payload
    requires i < |posts|
    requires i > 0 ==> env(0).response.Posted? && env(i - 1).response.Posted?
  {
    Payload(posts[i], env(i).now, LANGS, None,
            if i == 0 then None else Some(ReplyRef(AnchorOf(env(0).response), AnchorOf(env(i - 1).response))))
  }

  /** What posting `posts` as a thread hands to the agent: the records of the
      accepted posts and of the first rejected one, if any, and one pause per
      accepted post. */
  predicate ThreadSubmitted(posts: seq<string>, env: nat -> Environment, submitted: seq<Payload>, slept: nat)
  {
    var m := Accepted(env, |posts|);
    && |submitted| == (if m < |posts| then m + 1 else m)
    && (forall i :: 0 <= i < |submitted| ==> submitted[i] == ThreadPayload(posts, env, i))
    && slept == RATE_LIMIT_DELAY * m
  }

  class SkySplitter {
    /** `this.client`. */
    const client: BlueskyClient
    /** `this.currentPosts`: the posts of the last split. */
    var currentPosts: seq<string>
    /** The value of the `content` text area. */
    var content: string
    /** The text of the `charCount` label. */
    var charCountText: string
    /** Whether the split button is disabled. */
    var splitDisabled: bool

    /** A new application with a fresh client over the given session storage,
        an empty editor and nothing split. */
    constructor (storage: Option<Credentials>)
      ensures fresh(client) && client.Valid()
      ensures !client.isAuthenticated && client.stored == storage
      ensures currentPosts == [] && content == ""
      ensures charCountText == CharCountLabel(0) && splitDisabled
    {
      client := new BlueskyClient(storage);
      currentPosts := [];
      content := "";
      charCountText := CharCountLabel(0);
      splitDisabled := true;
    }

    /** `updateCharCount`: the label shows the length and the split button is
        disabled exactly when the text is empty. */
    method UpdateCharCount(text: string)
      modifies this`charCountText, this`splitDisabled
      ensures charCountText == CharCountLabel(|text|)
      ensures splitDisabled <==> text == ""
    {
      var count := |text|;
      charCountText := Decimal(count) + " characters";
      splitDisabled := count == 0;
    }

    /** The text area now holds `text` and its input listener runs
        `handleTextChange`: the links found are what the link section is given. */
    method HandleTextChange(text: string) returns (links: seq<string>)
      modifies this`content, this`charCountText, this`splitDisabled
      ensures content == text
      ensures links == DetectLinks(text)
      ensures charCountText == CharCountLabel(|text|)
      ensures splitDisabled <==> text == ""
    {
      content := text;
      links := DetectLinks(text);
      UpdateCharCount(text);
    }

    /** `handleSplit`: an empty editor leaves the posts alone; otherwise the
        posts become the split of the editor's text, which is empty exactly
        when that text is all spaces. */
    method HandleSplit()
      modifies this`currentPosts
      ensures content == "" ==> currentPosts == old(currentPosts)
      ensures content != "" ==> currentPosts == SplitResult(content)
      ensures content != "" ==>
        (currentPosts == [] <==> forall i :: 0 <= i < |content| ==> content[i] == ' ')
    {
      var text := content;
      if text == "" {
        return;
      }
      currentPosts := SplitText(text);
      OnlySpacesIff(text);
    }

    /** `handleLogin`: both fields are required; the client's login outcome
        becomes a notification. */
    method HandleLogin(username: string, appPassword: string, login: Outcome) returns (notice: Notice)
      requires client.Valid()
      modifies client
      ensures client.Valid()
      ensures username == "" || appPassword == "" ==>
        && notice == Notice("Login error: Both username and app password are required", Failure)
        && client.isAuthenticated == old(client.isAuthenticated)
        && client.stored == old(client.stored)
      ensures username != "" && appPassword != "" && login.Pass? ==>
        && notice == Notice("Login successful!", Success)
        && client.isAuthenticated
        && client.stored == Some(Credentials(username, appPassword))
      ensures username != "" && appPassword != "" && login.Fail? ==>
        && notice == Notice("Login error: Login failed: " + login.message, Failure)
        && !client.isAuthenticated
        && client.stored == old(client.stored)
    {
      if username == "" || appPassword == "" {
        return Notice("Login error: Both username and app password are required", Failure);
      }
      var r := client.Login(username, appPassword, login);
      if r.Err? {
        return Notice("Login error: " + r.message, Failure);
      }
      notice := Notice("Login successful!", Success);
    }

    /** `handleLogout`. */
    method HandleLogout() returns (notice: Notice)
      modifies client
      ensures client.Valid()
      ensures !client.isAuthenticated && client.stored.None?
      ensures notice == Notice("Logged out successfully", Success)
    {
      client.Logout();
      notice := Notice("Logged out successfully", Success);
    }

    /** The loop of `handlePost`: submits `posts` in order as a reply chain
        and stops at the first error. `env(i)` is what the outside world
        answers to the i-th `createPost` call; `submitted` lists the records
        handed to `agent.post`, `failure` the error that stopped the loop and
        `slept` the total pause. */
    method PostThread(posts: seq<string>, env: nat -> Environment)
      returns (submitted: seq<Payload>, failure: Option<string>, slept: nat)
      ensures posts != [] && !client.isAuthenticated ==>
        submitted == [] && failure == Some("Not authenticated") && slept == 0
      ensures posts == [] || client.isAuthenticated ==>
        var m := Accepted(env, |posts|);
        && ThreadSubmitted(posts, env, submitted, slept)
        && (failure.None? <==> m == |posts|)
        && (m < |posts| ==> failure == Some("Post failed: " + env(m).response.message))
    {
      var n := |posts|;
      ghost var m := Accepted(env, n);
      var rootPost: Option<Anchor> := None;
      var parentPost: Option<Anchor> := None;
      failure := None;
      submitted, slept := [], 0;
      var i := 0;
      while i < n && failure.None?
        invariant 0 <= i <= m <= n
        invariant forall j :: 0 <= j < i ==> env(j).response.Posted?
        invariant rootPost == if i == 0 then None else Some(AnchorOf(env(0).response))
        invariant parentPost == if i == 0 then None else Some(AnchorOf(env(i - 1).response))
        invariant slept == RATE_LIMIT_DELAY * i
        invariant !client.isAuthenticated ==> i == 0
        invariant failure.None? ==> |submitted| == i
        invariant failure.Some? ==> i < n
        invariant failure.Some? && !client.isAuthenticated ==>
          submitted == [] && failure.value == "Not authenticated"
        invariant failure.Some? && client.isAuthenticated ==>
          && i == m < n && |submitted| == i + 1
          && failure.value == "Post failed: " + env(i).response.message
        invariant forall j :: 0 <= j < |submitted| ==> j <= i && submitted[j] == ThreadPayload(posts, env, j)
        decreases n - i, if failure.None? then 1 else 0
      {
        var post := posts[i];
        var reply: Option<ReplyTo> := None;
        if rootPost.Some? {
          reply := Some(ReplyTo(rootPost, parentPost.value));
        }
        var sent, response := client.CreatePost(post, None, reply, env(i));
        if sent.Some? {
          submitted := submitted + [sent.value];
        }
        match response {
          case Err(message) =>
            failure := Some(message);
          case Ok(result) =>
            var anchor := Anchor(result.uri, result.cid);
            if i == 0 {
              rootPost := Some(anchor);
            }
            parentPost := Some(anchor);
            slept := slept + RATE_LIMIT_DELAY;
            i := i + 1;
        }
      }
    }

    /** `handlePost`: posts the current thread. Nothing happens without posts;
        a failure is reported and leaves the posts and the editor as they were;
        only a fully posted thread clears them. */
    method HandlePost(env: nat -> Environment) returns (submitted: seq<Payload>, notice: Option<Notice>, slept: nat)
      modifies this`currentPosts, this`content, this`charCountText, this`splitDisabled
      ensures old(currentPosts) == [] ==>
        && submitted == [] && notice.None? && slept == 0
        && currentPosts == old(currentPosts) && content == old(content)
        && charCountText == old(charCountText) && splitDisabled == old(splitDisabled)
      ensures old(currentPosts) != [] && !client.isAuthenticated ==>
        && submitted == [] && slept == 0
        && notice == Some(Notice("Error: Not authenticated", Failure))
        && currentPosts == old(currentPosts) && content == old(content)
        && charCountText == old(charCountText) && splitDisabled == old(splitDisabled)
      ensures old(currentPosts) != [] && client.isAuthenticated ==>
        ThreadSubmitted(old(currentPosts), env, submitted, slept)
      ensures old(currentPosts) != [] && client.isAuthenticated
              && Accepted(env, |old(currentPosts)|) == |old(currentPosts)| ==>
        && notice == Some(Notice("All posts created successfully!", Success))
        && currentPosts == [] && content == ""
        && charCountText == CharCountLabel(0) && splitDisabled
      ensures old(currentPosts) != [] && client.isAuthenticated
              && Accepted(env, |old(currentPosts)|) < |old(currentPosts)| ==>
        && notice == Some(Notice("Error: Post failed: " + env(Accepted(env, |old(currentPosts)|)).response.message, Failure))
        && currentPosts == old(currentPosts) && content == old(content)
        && charCountText == old(charCountText) && splitDisabled == old(splitDisabled)
    {
      if currentPosts == [] {
        return [], None, 0;
      }
      var failure;
      submitted, failure, slept := PostThread(currentPosts, env);
      if failure.Some? {
        ghost var m := Accepted(env, |currentPosts|);
        assert "Error: " + "Not authenticated" == "Error: Not authenticated";
        assert m < |currentPosts| ==>
          "Error: " + ("Post failed: " + env(m).response.message)
          == "Error: Post failed: " + env(m).response.message;
        notice := Some(Notice("Error: " + failure.value, Failure));
      } else {
        notice := Some(Notice("All posts created successfully!", Success));
        content := "";
        currentPosts := [];
        UpdateCharCount("");
      }
    }
  }
}
