/** `BlueskyClient`: the session flag, the credentials kept in session
    storage, and the payloads handed to the agent. The agent (`BskyAgent`), the
    thumbnail `fetch` and the clock are outside the model: what they answer is
    passed in as values. */
module Bluesky {
  import opened Wrappers

  /** The service the agent talks to. */
  const SERVICE: string := "https://bsky.social"

  /** The `$type` of a link-preview embed and of an uploaded thumbnail. */
  const EXTERNAL_EMBED_TYPE: string := "app.bsky.embed.external"
  const BLOB_TYPE: string := "blob"
  const THUMB_MIME_TYPE: string := "image/jpeg"

  /** The posting language tag. */
  const LANGS: seq<string> := ["en"]

  /** `{identifier, password}` as kept under `bluesky_credentials`. */
  datatype Credentials = Credentials(identifier: string, password: string)

  /** A post's address `{uri, cid}`. */
  datatype Anchor = Anchor(uri: string, cid: string)

  /** The `reply` argument of `createPost`: `{root, post}`, `root` possibly missing. */
  datatype ReplyTo = ReplyTo(root: Option<Anchor>, post: Anchor)

  /** The `reply` field of a post record: `{root, parent}`. */
  datatype ReplyRef = ReplyRef(root: Anchor, parent: Anchor)

  /** The `embed` argument of `createPost`: a link preview. */
  datatype EmbedInput = EmbedInput(url: string, title: string, description: string, thumb: Option<string>)

  /** Bytes read from the thumbnail response. */
  datatype Blob = Blob(bytes: seq<bv8>)

  /** `{$type, ref, mimeType, size}` of an uploaded thumbnail. */
  datatype Thumb = Thumb(typeName: string, ref: string, mimeType: string, size: nat)

  /** The `external` object of a link-preview embed. */
  datatype External = External(uri: string, title: string, description: string, thumb: Option<Thumb>)

  /** `{$type, external}`. */
  datatype EmbedData = EmbedData(typeName: string, external: External)

  /** The post record given to `agent.post`; an absent `embed` or `reply` key is `None`. */
  datatype Payload = Payload(
    text: string,
    createdAt: string,
    langs: seq<string>,
    embed: Option<EmbedData>,
    reply: Option<ReplyRef>)

  /** What `agent.post` does: resolve with `{uri, cid}` or throw. */
  datatype AgentResponse = Posted(uri: string, cid: string) | Rejected(message: string)

  /** `{success, uri, cid}` returned by `createPost`. */
  datatype PostResult = PostResult(success: bool, uri: string, cid: string)

  /** What the outside world answers during one `createPost` call: the time
      `new Date().toISOString()` reads, the thumbnail `fetch` and `blob()`, the
      `uploadBlob` call (the blob reference it returns) and `agent.post`. */
  datatype Environment = Environment(
    now: string,
    thumbFetch: Result<Blob>,
    thumbUpload: Result<string>,
    response: AgentResponse)

  /** `embed.thumb` is truthy: present and not the empty string. */
  predicate HasThumb(embed: EmbedInput)
  {
    embed.thumb.Some? && embed.thumb.value != ""
  }

  /** Building the embed throws: a thumbnail is wanted and fetching or uploading it fails. */
  predicate EmbedFails(embed: EmbedInput, env: Environment)
  {
    HasThumb(embed) && (env.thumbFetch.Err? || env.thumbUpload.Err?)
  }

  /** `e` is the embed built from `embed`: the preview fields copied, a thumbnail
      exactly when one is wanted, referring to the uploaded blob. */
  predicate Describes(e: EmbedData, embed: EmbedInput, env: Environment)
  {
    && e.typeName == EXTERNAL_EMBED_TYPE
    && e.external.uri == embed.url
    && e.external.title == embed.title
    && e.external.description == embed.description
    && (e.external.thumb.Some? <==> HasThumb(embed))
    && (e.external.thumb.Some? ==>
          && env.thumbFetch.Ok? && env.thumbUpload.Ok?
          && e.external.thumb.value
             == Thumb(BLOB_TYPE, env.thumbUpload.value, THUMB_MIME_TYPE, |env.thumbFetch.value.bytes|))
  }

  class BlueskyClient {
    /** The service the agent was created for. */
    const service: string
    /** `this.isAuthenticated`. */
    var isAuthenticated: bool
    /** The `bluesky_credentials` item of session storage. */
    var stored: Option<Credentials>

    /** A client that believes itself logged in has credentials to log in again with. */
    ghost predicate Valid()
      reads this
    {
      isAuthenticated ==> stored.Some?
    }

    /** A new client is logged out; session storage holds what it held before. */
    constructor (storage: Option<Credentials>)
      ensures Valid()
      ensures service == SERVICE && !isAuthenticated && stored == storage
    {
      service := SERVICE;
      isAuthenticated := false;
      stored := storage;
    }

    /** `checkSession`: logs in again with the stored credentials, if any.
        `login` is what `agent.login` does with them. */
    method CheckSession(login: Outcome) returns (restored: bool, attempted: Option<Credentials>)
      requires Valid()
      modifies this
      ensures Valid()
      ensures restored == isAuthenticated
      ensures attempted == old(stored)
      ensures old(stored).None? ==> !restored && stored == old(stored) && isAuthenticated == old(isAuthenticated)
      ensures old(stored).Some? && login.Pass? ==> restored && stored == old(stored)
      ensures old(stored).Some? && login.Fail? ==> !restored && stored.None?
    {
      attempted := stored;
      if stored.Some? {
        if login.Pass? {
          isAuthenticated := true;
          return true, attempted;
        } else {
          stored := None;
          isAuthenticated := false;
          return false, attempted;
        }
      }
      return false, attempted;
    }

    /** `login`: `login` is what `agent.login` does with these credentials. */
    method Login(identifier: string, appPassword: string, login: Outcome) returns (r: Result<bool>)
      requires Valid()
      modifies this
      ensures Valid()
      ensures login.Pass? ==>
        r == Ok(true) && isAuthenticated && stored == Some(Credentials(identifier, appPassword))
      ensures login.Fail? ==>
        r == Err("Login failed: " + login.message) && !isAuthenticated && stored == old(stored)
    {
      if login.Fail? {
        isAuthenticated := false;
        return Err("Login failed: " + login.message);
      }
      isAuthenticated := true;
      stored := Some(Credentials(identifier, appPassword));
      r := Ok(true);
    }

    /** `logout`: forgets the session and the stored credentials. */
    method Logout()
      modifies this
      ensures Valid()
      ensures !isAuthenticated && stored.None?
    {
      isAuthenticated := false;
      stored := None;
    }

    /** `createEmbed`: the preview fields are copied; a thumbnail is fetched,
        uploaded and attached only when `embed.thumb` is set. Errors from the
        fetch or the upload propagate. */
    method CreateEmbed(embed: EmbedInput, env: Environment) returns (r: Result<EmbedData>)
      ensures r.Err? <==> EmbedFails(embed, env)
      ensures r.Err? ==>
        r.message == if env.thumbFetch.Err? then env.thumbFetch.message else env.thumbUpload.message
      ensures r.Ok? ==> Describes(r.value, embed, env)
    {
      var embedData := EmbedData(EXTERNAL_EMBED_TYPE, External(embed.url, embed.title, embed.description, None));
      if HasThumb(embed) {
        if env.thumbFetch.Err? {
          return Err(env.thumbFetch.message);
        }
        var blob := env.thumbFetch.value;
        if env.thumbUpload.Err? {
          return Err(env.thumbUpload.message);
        }
        var upload := env.thumbUpload.value;
        embedData := embedData.(external := embedData.external.(
          thumb := Some(Thumb(BLOB_TYPE, upload, THUMB_MIME_TYPE, |blob.bytes|))));
      }
      r := Ok(embedData);
    }

    /** `createPost`: refuses when logged out, otherwise builds the post record
        and hands it to `agent.post`. `submitted` is the record handed over, if
        any. Every failure after the authentication check is rethrown with the
        prefix "Post failed: ". */
    method CreatePost(text: string, embed: Option<EmbedInput>, reply: Option<ReplyTo>, env: Environment)
      returns (submitted: Option<Payload>, r: Result<PostResult>)
      ensures !isAuthenticated ==> submitted.None? && r == Err("Not authenticated")
      ensures submitted.Some? <==> isAuthenticated && !(embed.Some? && EmbedFails(embed.value, env))
      ensures isAuthenticated && embed.Some? && EmbedFails(embed.value, env) ==>
        r == Err("Post failed: " +
                 if env.thumbFetch.Err? then env.thumbFetch.message else env.thumbUpload.message)
      ensures submitted.Some? ==>
        && submitted.value.text == text
        && submitted.value.createdAt == env.now
        && submitted.value.langs == ["en"]
        && (submitted.value.embed.Some? <==> embed.Some?)
        && (embed.Some? ==> Describes(submitted.value.embed.value, embed.value, env))
        && (submitted.value.reply.Some? <==> reply.Some?)
        && (reply.Some? ==>
              && submitted.value.reply.value.parent == reply.value.post
              && submitted.value.reply.value.root
                 == if reply.value.root.Some? then reply.value.root.value else reply.value.post)
      ensures submitted.Some? ==>
        r == match env.response
             case Posted(uri, cid) => Ok(PostResult(true, uri, cid))
             case Rejected(message) => Err("Post failed: " + message)
    {
      if !isAuthenticated {
        return None, Err("Not authenticated");
      }
      var post := Payload(text, env.now, LANGS, None, None);
      if embed.Some? {
        var built := CreateEmbed(embed.value, env);
        if built.Err? {
          return None, Err("Post failed: " + built.message);
        }
        post := post.(embed := Some(built.value));
      }
      if reply.Some? {
        var root := if reply.value.root.Some? then reply.value.root.value else reply.value.post;
        post := post.(reply := Some(ReplyRef(root, reply.value.post)));
      }
      submitted := Some(post);
      match env.response {
        case Posted(uri, cid) =>
          r := Ok(PostResult(true, uri, cid));
        case Rejected(message) =>
          r := Err("Post failed: " + message);
      }
    }
  }
}
