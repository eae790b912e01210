# Skysplitter desktop, modelled in Dafny

Skysplitter is a desktop editor for Bluesky. It cuts a long text into posts,
aiming at the network's limit of 300 characters, and posts them as a thread:
the first post is the root, and every later post replies to the post before
it. The model shows when the 300-character limit is kept and gives inputs
where it is not. This project models
the two files that hold the logic, and proves properties of the model.

- `src/client/app.js`, the `SkySplitter` application object:
  - `splitText`, a greedy word wrap;
  - `detectLinks`, the URL scan;
  - the character counter and split-button rule of `updateCharCount`;
  - the `handleSplit` guard;
  - the `handleLogin` and `handleLogout` handlers;
  - the `handlePost` loop, which threads the root and parent anchors through
    successive posts.
- `src/api/bluesky.js`, the `BlueskyClient`:
  - the session flag and the credentials kept in session storage, across
    `checkSession`, `login` and `logout`;
  - the post records `createPost` and `createEmbed` build.

The files:

| file | module | contents |
|---|---|---|
| `wrappers.dfy` | `Wrappers` | `Option`, `Result`, and `Outcome` (what a login attempt does) |
| `jstext.dfy` | `JsText` | the JavaScript string built-ins used: `split(' ')`, `substring`, `${n}`, and the regex class `\s`; `Join` (joining with single spaces) states what `split(' ')` computes |
| `splitter.dfy` | `Splitter` | `splitText` as an imperative method, its specification function, and reading a `" (i/N)"` counter back |
| `splitter_props.dfy` | `SplitterProps` | what `splitText` guarantees, and concrete inputs where it breaks the 300 limit |
| `links.dfy` | `LinkDetection` | `detectLinks`, with soundness and completeness against a declarative definition of a URL |
| `bluesky.dfy` | `Bluesky` | the `BlueskyClient` class and the post-record datatypes |
| `app.dfy` | `App` | the `SkySplitter` class: editor state, split, login and logout, and thread posting |

Strings are sequences of code units of the Basic Multilingual Plane, one
`char` per code unit, so `|s|` is JavaScript's `s.length` for such text.

The outside world is passed in as values:
- what `agent.login` does is an `Outcome`;
- what one `createPost` call meets is an `Environment`: the timestamp, the
  thumbnail fetch, the blob upload, and the answer of `agent.post`;
- `handlePost` receives one `Environment` per call, as a function of the call's
  index.

### What the code does at its edges

- **The 300-character limit is kept only under conditions.**
  - While post k is filled, room is kept for `" (k/?)"`. A thread of 10 or
    more posts numbers its first post `" (1/10)"`, one character more than
    was kept free, and that post can reach 301 characters
    (`TenPostOverflow`).
  - A word that does not fit becomes the next post in progress whatever its
    length, and so does the remainder of a hard split. Either way that post
    can exceed the limit: 700 `x` give a second post of 412 characters
    (`OversizedSecondSegment`).
  - `LengthBound` proves the conditions under which the limit holds.
- **A long word is cut at most once.** A word that does not fit an empty
  post k is cut into its first 300 - |" (k/?)"| characters (294 for the first
  nine posts) and the rest, however long the rest is (`Splitter.Step`,
  `SingleWordSegments`).
- **Links are only detected.** The code places no links in posts, does not
  normalise URLs, fetches no page metadata, makes no retries, builds no
  rich-text facets and does not count partly posted threads. `handlePost`
  always calls `createPost` without an embed.
- **The one-post bound is 294.** A text without spaces, of up to
  300 - |" (1/?)"| = 294 characters, stays one post
  (`ShortTextSingleSegment`).

## Model

| member | source | states |
|---|---|---|
| JsText.Split | src/client/app.js:173 | `text.split(' ')`: at least one piece and at most one more than the characters; the pieces joined with single spaces give back the text; no piece contains a space |
| JsText.SplitOfJoin | src/client/app.js:173 | splitting on spaces undoes joining a non-empty list of space-free words |
| JsText.Substring | src/client/app.js:190 | `word.substring(0, n)`: never longer than the word; within range it is the slice between the two indices, in either order |
| JsText.SubstringFrom | src/client/app.js:191 | `word.substring(n)`: the tail from n, the whole word for n <= 0 and nothing from the end on |
| JsText.SubstringSplit | src/client/app.js:190-191 | for any cut index, the piece pushed and the remainder put together are the word |
| JsText.Decimal | src/client/app.js:180 | the numeral of a count is non-empty and made of digits |
| JsText.ParseDecimalOfDecimal | src/client/app.js:202 | a rendered post number reads back as the number |
| JsText.DecimalLength | src/client/app.js:180 | a count below 10^d renders in at most d digits |
| Splitter.Step | src/client/app.js:178-193 | one word: finished posts are never changed and at most one is added; a post finished by a full append is the old post in progress and the word starts the next; a hard split pushes a prefix of the word and keeps the rest as the post in progress |
| Splitter.Walk | src/client/app.js:177-194 | the word loop only appends finished posts, at most one per word |
| Splitter.Flush | src/client/app.js:196-198 | the finished posts are kept; a non-empty post in progress becomes the last post, an empty one adds nothing |
| Splitter.SplitResult | src/client/app.js:172-206 | one numbered post per raw post; none for the empty text; at most two more posts than the text has characters |
| Splitter.SplitText | src/client/app.js:172-206 | the word loop, hard split, final push and numbering compute exactly the specification `SplitResult(text)`; empty text gives no posts |
| Splitter.Numbered | src/client/app.js:200-205 | numbering keeps one post per raw post |
| Splitter.UnnumberSuffix | src/client/app.js:202 | stripping `" (i/n)"` from `raw + " (i/n)"` gives back raw, i and n |
| Splitter.NumberedRoundTrip | src/client/app.js:200-205 | with N > 1, post i reads back as raw post i, number i + 1 and total N; a lone post is returned unchanged |
| SplitterProps.ReserveSingleDigit | src/client/app.js:179-180 | for posts 1 to 9 the reserved counter is 6 characters, leaving 294 |
| SplitterProps.OnlySpacesIff | src/client/app.js:173-205 | no posts exactly when the text consists only of spaces (including the empty text); numbering never adds or removes posts |
| SplitterProps.AvailableBound | src/client/app.js:189 | for any post number a JavaScript array can reach, at least 279 characters remain after the reserve |
| SplitterProps.SegmentsNonEmpty | src/client/app.js:185-198 | every post pushed is non-empty |
| SplitterProps.ShortTextSingleSegment | src/client/app.js:172-205 | a non-empty text of at most 294 characters not starting with a space is returned as the single post, unchanged |
| SplitterProps.JoinRoundTrip | src/client/app.js:173-198 | when no word is empty and the first has at most 293 characters, the raw posts joined with spaces give back the text |
| SplitterProps.HardSplitStep | src/client/app.js:188-191 | a word that does not fit an empty post is cut at `300 - reserve`; the pushed prefix followed by the new post in progress is the word |
| SplitterProps.SingleWordSegments | src/client/app.js:177-198 | a single space-free word yields itself if at most 294 long, otherwise exactly two posts: its first 294 characters and the rest |
| SplitterProps.OversizedSecondSegment | src/client/app.js:187-205 | 700 `x` give two posts, the second 412 characters long |
| SplitterProps.AppendBranchBound | src/client/app.js:179-183 | a post grown by the append branch leaves room for the reserved counter |
| SplitterProps.LengthBound | src/client/app.js:179-205 | if every word has at most 293 characters and there are at most nine posts, every numbered post has at most 300 characters |
| SplitterProps.TenthCounter | src/client/app.js:200-203 | in a thread of ten posts the first carries a 7-character counter |
| SplitterProps.OverflowFromShape | src/client/app.js:177-205 | words of lengths 1, 292 and nine times 293 give ten posts, the first 301 characters long |
| SplitterProps.TenPostOverflow | src/client/app.js:177-205 | a concrete text of that shape whose first post is 301 characters |
| LinkDetection.RunEnd | src/client/app.js:109 | `[^\s]+` runs over non-whitespace and stops at whitespace or the end |
| LinkDetection.LinkSpans | src/client/app.js:109-110 | the matches lie inside the text, each non-empty, in order, without overlap |
| LinkDetection.LinkSpansSound | src/client/app.js:109-110 | every match is a URL and extends to the next whitespace or the end of the text |
| LinkDetection.LinkSpansComplete | src/client/app.js:109-110 | every URL occurring in the text starts inside some match |
| LinkDetection.DetectLinks | src/client/app.js:108-111 | the global matches of the URL pattern in text order: one string per match, each a URL |
| LinkDetection.DetectLinksSpec | src/client/app.js:108-111 | `detectLinks` returns `[]` exactly when the text contains no URL |
| Bluesky.BlueskyClient.constructor | src/api/bluesky.js:11-16 | a new client is logged out; session storage is untouched |
| Bluesky.BlueskyClient.CheckSession | src/api/bluesky.js:18-36 | no stored credentials: returns false and changes nothing. Otherwise it logs in with them: success sets the flag and returns true; failure removes them, clears the flag and returns false |
| Bluesky.BlueskyClient.Login | src/api/bluesky.js:38-55 | success sets the flag and stores the credentials; failure clears the flag, leaves storage alone, and fails with "Login failed: " + message |
| Bluesky.BlueskyClient.Logout | src/api/bluesky.js:57-60 | clears the flag and removes the stored credentials |
| Bluesky.BlueskyClient.CreateEmbed | src/api/bluesky.js:96-122 | fails exactly when a thumbnail is wanted and its fetch or upload fails, with that error. Otherwise it is an external embed copying url, title and description, with a JPEG thumb of the fetched size exactly when `embed.thumb` is truthy |
| Bluesky.BlueskyClient.CreatePost | src/api/bluesky.js:62-94 | logged out: "Not authenticated" and nothing submitted. Otherwise the record carries the text, the time and `["en"]`; it has an embed iff one was passed and a reply iff one was passed, with parent = post and root = root, or post when root is missing. The agent's uri and cid are returned; every later failure gets the prefix "Post failed: " |
| App.CharCountLabel | src/client/app.js:160 | the counter label is longer than the suffix and ends with " characters" |
| App.CharCountLabelReadsBack | src/client/app.js:158-160 | the counter label is a numeral followed by " characters", and the numeral reads back as the length |
| App.Accepted | src/client/app.js:234-260 | the number of leading posts the agent accepts: all before it are accepted, and the next one, if any, is rejected |
| App.SkySplitter.constructor | src/client/app.js:14-20 | a fresh, logged-out client and no posts |
| App.SkySplitter.UpdateCharCount | src/client/app.js:158-162 | the label shows the length; the split button is disabled exactly when the text is empty |
| App.SkySplitter.HandleTextChange | src/client/app.js:102-106 | the links handed on are `detectLinks(text)`, and the counter is updated |
| App.SkySplitter.HandleSplit | src/client/app.js:164-170 | an empty editor leaves the posts unchanged and the splitter is not run; otherwise the posts become `splitText(content)`, empty exactly when the content is all spaces |
| App.SkySplitter.HandleLogin | src/client/app.js:76-90 | both fields are required; the login outcome becomes the success or error notification and the client state of `login` |
| App.SkySplitter.HandleLogout | src/client/app.js:92-100 | logs the client out and reports success |
| App.SkySplitter.PostThread | src/client/app.js:230-260 | posts are submitted in order up to and including the first rejection, and none after it. Post 0 has no reply; post i > 0 replies with root = first post and parent = post i - 1. One pause follows each accepted post |
| App.SkySplitter.HandlePost | src/client/app.js:227-272 | nothing happens without posts. A full success reports success and clears the posts, the editor and the counter; a failure reports "Error: " + message and keeps them |

## Left out

- `main.js` is not part of this model. It creates the Electron window and registers assets.
- DOM rendering is out: the view switches, `setupEventListeners`, `updateLinkSection`, `createLinkElement`, `removeLink`, `showPreview`, `updateProgress`, and `showNotification` with its five-second removal. A notification is returned as a value.
- `init` is not modelled. It is the asynchronous `checkSession` call started by the `SkySplitter` constructor, and it only chooses a view; `CheckSession` models the call itself.
- The unused `links` set and `embeds` map of `SkySplitter` are not modelled.
- The initial text of the counter label and the initial button state come from the page markup. The constructor starts them as for an empty editor.
- `BskyAgent`, `fetch` and `Date` are parameters, not modelled code: login, post submission, blob upload, thumbnail download and the timestamp.
- The blob reference from `uploadBlob` is an opaque string.
- Session storage is the `stored` field of the client.
- `JSON.stringify` and `JSON.parse` of the stored credentials are not modelled. A malformed stored item (which `login` never writes) would take the failure path of `checkSession`.
- Pauses: `setTimeout` in `handlePost` is counted as total milliseconds, not waited.
- `handleLogout`: its error branch is unreachable in the model, because `logout` cannot fail here.
- Asynchrony is not modelled. The source awaits every call in sequence, so each call is one step.
- Text containing characters outside the Basic Multilingual Plane (emoji, for example) is not modelled. JavaScript stores each such character as a surrogate pair of two code units, but a Dafny `char` is a whole Unicode scalar value. So the model neither counts such a character as 2 toward `text.length` nor lets the hard split (`src/client/app.js:190-191`) cut a pair in half.
- `IsWhitespace` lists the `\s` code points as the ECMAScript standard defines them. It is not a Unicode database lookup.
- Strings do not exceed the ECMAScript bound of 2^53 - 1 code units.
- `SegmentsNonEmpty`: assumes that bound on the text length, because the proof needs the post counter to stay below 10^16.
- `LengthBound`: covers only threads of at most nine posts whose words have at most 293 characters, because outside those conditions the code exceeds 300 characters (see `TenPostOverflow` and `OversizedSecondSegment`).
