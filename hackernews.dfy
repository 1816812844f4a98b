// HackerNewsFS, a WebAssembly plugin: `/refresh` fetches the current top
// stories over HTTP and `/frontpage/<n>.md` renders the n-th one as markdown.
// The story list lives in a `RefCell` that a refresh replaces, so the plugin is
// a class whose `stories` field the refreshing operations reassign. The HTTP
// client, its success test and the JSON decoders are parameters (`Net`);
// `into_bytes` is the parameter `utf8`.
module HackerNews {
  import opened Wrappers
  import opened Packing
  import opened WasmTypes
  import Text

  const HN_API_BASE := "https://hacker-news.firebaseio.com/v0"

  const MAX_STORIES: nat := 30

  const REFRESH := "/refresh"

  const FRONTPAGE := "/frontpage"

  const FRONTPAGE_PREFIX := "/frontpage/"

  const MODE_FILE: Nat32 := 0x1A4  // 0644
  const MODE_DIR: Nat32 := 0x1ED   // 0755

  /** The plugin's name; the root directory's own record is named differently. */
  const NAME := "hackernewsfs"

  /** The name in the record `stat` gives for the root directory. */
  const ROOT_NAME := "hackernews"

  /** A story as the item endpoint serves it; absent fields take their defaults. `author` is the
      item's `by` field. */
  datatype HNItem = HNItem(
    id: Nat64, title: string, author: string, score: I64, url: string, text: string,
    descendants: I64, time: I64)

  /** An HTTP response: `success` is `is_success()`, `status` the status code. */
  datatype Response = Response(success: bool, status: int, body: seq<Byte>)

  /** The network and the decoders: `get` is `Http::get`, `parseIds` and `parseStory`
      are `response.json()` at the two types, failing with the decoder's message. */
  datatype Net = Net(
    get: string -> Result<Response, Error>,
    parseIds: seq<Byte> -> Result<seq<Nat64>, string>,
    parseStory: seq<Byte> -> Result<HNItem, string>)

  function TopStoriesUrl(): string { HN_API_BASE + "/topstories.json" }

  function ItemUrl(id: Nat64): (u: string)
    ensures Text.StartsWith(u, HN_API_BASE + "/item/") && Text.EndsWith(u, ".json")
  {
    var u := HN_API_BASE + "/item/" + Text.NatToString(id) + ".json";
    assert u[..|HN_API_BASE + "/item/"|] == HN_API_BASE + "/item/";
    assert u[|u| - 5..] == ".json";
    u
  }

  /** `fetch_story`: a transport error passes through, an unsuccessful status becomes
      "HTTP <status>", a body that does not decode "Failed to parse story: <reason>". */
  function FetchStory(net: Net, id: Nat64): (r: Result<HNItem, Error>)
    ensures net.get(ItemUrl(id)).Err? ==> r == Err(net.get(ItemUrl(id)).error)
    ensures net.get(ItemUrl(id)).Ok? && !net.get(ItemUrl(id)).value.success ==>
              r == Err(Other("HTTP " + Text.IntToString(net.get(ItemUrl(id)).value.status)))
    ensures r.Ok? <==> net.get(ItemUrl(id)).Ok? && net.get(ItemUrl(id)).value.success
                       && net.parseStory(net.get(ItemUrl(id)).value.body).Ok?
  {
    match net.get(ItemUrl(id))
    case Err(e) => Err(e)
    case Ok(resp) =>
      if !resp.success then Err(Other("HTTP " + Text.IntToString(resp.status)))
      else match net.parseStory(resp.body)
        case Ok(item) => Ok(item)
        case Err(e) => Err(Other("Failed to parse story: " + e))
  }

  /** The first step of `fetch_top_stories`: the list of top story ids, or the error that
      ends the refresh. */
  function TopStories(net: Net): (r: Result<seq<Nat64>, Error>)
    ensures net.get(TopStoriesUrl()).Err? ==> r == Err(net.get(TopStoriesUrl()).error)
    ensures net.get(TopStoriesUrl()).Ok? ==>
              var resp := net.get(TopStoriesUrl()).value;
              (!resp.success ==> r == Err(Other("Failed to fetch top stories: HTTP " + Text.IntToString(resp.status))))
              && (resp.success && resp.body == [] ==> r == Err(Other("Response body is empty")))
              && (resp.success && resp.body != [] ==>
                    match net.parseIds(resp.body)
                    case Ok(ids) => r == Ok(ids)
                    case Err(e) => r == Err(Other("Failed to parse story IDs: " + e)))
  {
    match net.get(TopStoriesUrl())
    case Err(e) => Err(e)
    case Ok(resp) =>
      if !resp.success then Err(Other("Failed to fetch top stories: HTTP " + Text.IntToString(resp.status)))
      else if resp.body == [] then Err(Other("Response body is empty"))
      else match net.parseIds(resp.body)
        case Ok(ids) => Ok(ids)
        case Err(e) => Err(Other("Failed to parse story IDs: " + e))
  }

  /** The stories fetched, in order, for a list of ids; an id whose fetch fails is skipped. */
  function Collected(net: Net, ids: seq<Nat64>): seq<HNItem>
    decreases |ids|
  {
    if ids == [] then []
    else
      var last := ids[|ids| - 1];
      Collected(net, ids[..|ids| - 1]) + (if FetchStory(net, last).Ok? then [FetchStory(net, last).value] else [])
  }

  function Take<T>(s: seq<T>, n: nat): (r: seq<T>)
    ensures |r| == if |s| <= n then |s| else n
    ensures r == s[..|r|]
  {
    if |s| <= n then s else s[..n]
  }

  /** What `fetch_top_stories` leaves in the list: the fetched stories among the first
      `MAX_STORIES` ids, or the error that left the list unchanged. */
  function Refreshed(net: Net): Result<seq<HNItem>, Error>
  {
    match TopStories(net)
    case Err(e) => Err(e)
    case Ok(ids) => Ok(Collected(net, Take(ids, MAX_STORIES)))
  }

  /** Every collected story is the fetch result of one of the ids, and a failing fetch only
      shortens the list. */
  lemma {:induction false} CollectedFromFetches(net: Net, ids: seq<Nat64>)
    ensures |Collected(net, ids)| <= |ids|
    ensures forall k :: 0 <= k < |Collected(net, ids)| ==>
              exists j :: 0 <= j < |ids| && FetchStory(net, ids[j]) == Ok(Collected(net, ids)[k])
    decreases |ids|
  {
    if ids != [] {
      var init := ids[..|ids| - 1];
      CollectedFromFetches(net, init);
      var c := Collected(net, ids);
      forall k | 0 <= k < |c|
        ensures exists j :: 0 <= j < |ids| && FetchStory(net, ids[j]) == Ok(c[k])
      {
        if k < |Collected(net, init)| {
          var j :| 0 <= j < |init| && FetchStory(net, init[j]) == Ok(Collected(net, init)[k]);
          assert ids[j] == init[j];
        } else {
          assert FetchStory(net, ids[|ids| - 1]) == Ok(c[k]);
        }
      }
    }
  }

  /** When every fetch succeeds, the list holds exactly the fetched story of each id in order. */
  lemma {:induction false} CollectedAllSucceed(net: Net, ids: seq<Nat64>)
    requires forall j :: 0 <= j < |ids| ==> FetchStory(net, ids[j]).Ok?
    ensures |Collected(net, ids)| == |ids|
    ensures forall j :: 0 <= j < |ids| ==> Collected(net, ids)[j] == FetchStory(net, ids[j]).value
    decreases |ids|
  {
    if ids != [] {
      var init := ids[..|ids| - 1];
      assert forall j :: 0 <= j < |init| ==> init[j] == ids[j];
      CollectedAllSucceed(net, init);
    }
  }

  /** A refresh never keeps more than `MAX_STORIES` stories. */
  lemma RefreshedAtMostMax(net: Net)
    ensures Refreshed(net).Ok? ==> |Refreshed(net).value| <= MAX_STORIES
  {
    if TopStories(net).Ok? {
      CollectedFromFetches(net, Take(TopStories(net).value, MAX_STORIES));
    }
  }

  /** The text a refresh reports. */
  function RefreshMessage(n: nat): (m: string)
    ensures Text.StartsWith(m, "Refreshed " + Text.NatToString(n))
  {
    var m := "Refreshed " + Text.NatToString(n) + " stories from Hacker News\n";
    assert m[..|"Refreshed " + Text.NatToString(n)|] == "Refreshed " + Text.NatToString(n);
    m
  }

  /** The heading and story number that open a page. */
  function MarkdownHead(index: nat, s: HNItem): string
  {
    "# " + s.title + "\n\n**Story #" + Text.NatToString(index + 1) + "**\n\n"
  }

  /** The link to the story's discussion that closes a page. */
  function MarkdownTail(s: HNItem): string
  {
    "\n---\nView on HN: https://news.ycombinator.com/item?id=" + Text.NatToString(s.id) + "\n"
  }

  /** The fields between: the URL line only for a story with a URL, the content section only
      for a story with text. */
  function MarkdownDetails(s: HNItem): string
  {
    var urlLine := if s.url != [] then "- **URL**: " + s.url + "\n" else "";
    var contentSection := if s.text != [] then "\n## Content\n\n" + s.text + "\n" else "";
    "- **Author**: " + s.author + "\n"
    + "- **Score**: " + Text.IntToString(s.score as int) + "\n"
    + "- **Comments**: " + Text.IntToString(s.descendants as int) + "\n"
    + "- **ID**: " + Text.NatToString(s.id) + "\n"
    + urlLine
    + "- **Time**: " + Text.IntToString(s.time as int) + "\n"
    + contentSection
  }

  /** `story_to_markdown` for the story at zero-based `index`, laid out as the dedented
      template gives it. */
  function StoryToMarkdown(index: nat, s: HNItem): string
  {
    MarkdownHead(index, s) + MarkdownDetails(s) + MarkdownTail(s)
  }

  /** The page opens with the title heading and the one-based story number, and closes with
      the link to the story's discussion. */
  lemma MarkdownFrame(index: nat, s: HNItem)
    ensures Text.StartsWith(StoryToMarkdown(index, s), "# " + s.title + "\n")
    ensures Text.StartsWith(StoryToMarkdown(index, s), MarkdownHead(index, s))
    ensures Text.EndsWith(StoryToMarkdown(index, s), MarkdownTail(s))
  {
    var head := MarkdownHead(index, s);
    var md := StoryToMarkdown(index, s);
    assert md[..|head|] == head;
    assert head[..|"# " + s.title + "\n"|] == "# " + s.title + "\n";
    assert md[..|"# " + s.title + "\n"|] == head[..|"# " + s.title + "\n"|];
    assert md[|md| - |MarkdownTail(s)|..] == MarkdownTail(s);
  }

  /** A story without URL or text has neither the URL line nor the content section. */
  lemma MarkdownOmitsEmptyFields(s: HNItem)
    requires s.url == [] && s.text == []
    ensures MarkdownDetails(s) ==
      "- **Author**: " + s.author + "\n"
      + "- **Score**: " + Text.IntToString(s.score as int) + "\n"
      + "- **Comments**: " + Text.IntToString(s.descendants as int) + "\n"
      + "- **ID**: " + Text.NatToString(s.id) + "\n"
      + "- **Time**: " + Text.IntToString(s.time as int) + "\n"
  {
    var a := "- **Author**: " + s.author + "\n"
      + "- **Score**: " + Text.IntToString(s.score as int) + "\n"
      + "- **Comments**: " + Text.IntToString(s.descendants as int) + "\n"
      + "- **ID**: " + Text.NatToString(s.id) + "\n";
    assert a + "" == a;
    var t := "- **Time**: " + Text.IntToString(s.time as int) + "\n";
    assert t + "" == t;
  }

  /** A story with text ends its details with the content section holding that text. */
  lemma MarkdownShowsText(s: HNItem)
    requires s.text != []
    ensures Text.EndsWith(MarkdownDetails(s), "\n## Content\n\n" + s.text + "\n")
  {
    var d := MarkdownDetails(s);
    var c := "\n## Content\n\n" + s.text + "\n";
    assert d[|d| - |c|..] == c;
  }

  /** `str::parse::<usize>` on wasm32: an optional `+`, at least one decimal digit, and a value
      below 2^32. */
  function ParseUsize(s: string): (r: Option<nat>)
    ensures r.Some? ==> r.value < 0x1_0000_0000
  {
    var d := if s != [] && s[0] == '+' then s[1..] else s;
    if d == [] || !(forall i :: 0 <= i < |d| ==> Text.IsDigit(d[i])) then None
    else if Text.DigitsValue(d) < 0x1_0000_0000 then Some(Text.DigitsValue(d))
    else None
  }

  /** The decimal rendering of an index parses back to it. */
  lemma ParseUsizeOfNatToString(n: nat)
    requires n < 0x1_0000_0000
    ensures ParseUsize(Text.NatToString(n)) == Some(n)
  {
    Text.DigitsOfNatToString(n);
  }

  /** The text strictly between `/frontpage/` and `.md`, for a path that has both. */
  function FrontpageName(path: string): (r: Option<string>)
    ensures r.Some? <==> Text.StartsWith(path, FRONTPAGE_PREFIX) && Text.EndsWith(path, ".md")
    ensures r.Some? ==> path == FRONTPAGE_PREFIX + r.value + ".md"
  {
    if Text.StartsWith(path, FRONTPAGE_PREFIX) && Text.EndsWith(path, ".md") then
      assert |path| >= 14 by {
        assert path[..11] == FRONTPAGE_PREFIX && path[|path| - 3..] == ".md";
        assert path[|path| - 3] == '.';
      }
      assert path == path[..11] + path[11..|path| - 3] + path[|path| - 3..];
      Some(path[11..|path| - 3])
    else None
  }

  /** The path of the story at one-based `n`. */
  function StoryPath(n: nat): string { FRONTPAGE_PREFIX + Text.NatToString(n) + ".md" }

  lemma FrontpageNameOfStoryPath(n: nat)
    ensures FrontpageName(StoryPath(n)) == Some(Text.NatToString(n))
  {
    var p := StoryPath(n);
    assert p[..|FRONTPAGE_PREFIX|] == FRONTPAGE_PREFIX;
    assert p[|p| - 3..] == ".md";
    var name := FrontpageName(p).value;
    assert FRONTPAGE_PREFIX + name + ".md" == FRONTPAGE_PREFIX + Text.NatToString(n) + ".md";
    assert name == p[|FRONTPAGE_PREFIX|..|p| - 3];
  }

  /** The one-based story number a frontpage path names; `NotFound` for a name that does not
      parse, for zero and for a number past the end of the list. */
  function StoryIndex(stories: seq<HNItem>, path: string): (r: Result<nat, Error>)
    ensures r.Ok? ==> 1 <= r.value <= |stories|
    ensures r.Err? ==> r.error == NotFound
  {
    match FrontpageName(path)
    case None => Err(NotFound)
    case Some(name) =>
      match ParseUsize(name)
      case None => Err(NotFound)
      case Some(index) => if index == 0 || index > |stories| then Err(NotFound) else Ok(index)
  }

  /** Every story of the list is reachable under its one-based number. */
  lemma StoryIndexOfStoryPath(stories: seq<HNItem>, k: nat)
    requires k < |stories| && |stories| < 0x1_0000_0000
    ensures StoryIndex(stories, StoryPath(k + 1)) == Ok(k + 1)
  {
    FrontpageNameOfStoryPath(k + 1);
    ParseUsizeOfNatToString(k + 1);
  }

  /** A number past the list names no story. */
  lemma StoryIndexPastEnd(stories: seq<HNItem>, k: nat)
    requires k >= |stories|
    ensures StoryIndex(stories, StoryPath(k + 1)) == Err(NotFound)
  {
    FrontpageNameOfStoryPath(k + 1);
    Text.DigitsOfNatToString(k + 1);
  }

  /** `read` of any path but `/refresh`: the markdown of the story the path names. */
  function ReadStory(stories: seq<HNItem>, path: string, utf8: string -> seq<Byte>): (r: Result<seq<Byte>, Error>)
    ensures StoryIndex(stories, path).Err? ==> r == Err(NotFound)
    ensures StoryIndex(stories, path).Ok? ==>
              var n := StoryIndex(stories, path).value;
              r == Ok(StoryBytes(stories, n, utf8))
  {
    match StoryIndex(stories, path)
    case Err(e) => Err(e)
    case Ok(n) => Ok(StoryBytes(stories, n, utf8))
  }

  /** The bytes of the page of the story numbered `n`, counted from one. */
  function StoryBytes(stories: seq<HNItem>, n: nat, utf8: string -> seq<Byte>): (b: seq<Byte>)
    requires 1 <= n <= |stories|
  {
    utf8(StoryToMarkdown(n - 1, stories[n - 1]))
  }

  /** The entry of the story at zero-based `i`, sized by its rendered markdown. */
  function StoryEntry(i: nat, s: HNItem, utf8: string -> seq<Byte>): (fi: FileInfo)
    ensures fi.name == Text.NatToString(i + 1) + ".md" && !fi.isDir && fi.mode == MODE_FILE
    ensures fi.size == UsizeAsI64(|utf8(StoryToMarkdown(i, s))|)
  {
    FileOf(Text.NatToString(i + 1) + ".md", UsizeAsI64(|utf8(StoryToMarkdown(i, s))|), MODE_FILE)
  }

  /** `stat`: the root and `/frontpage` directories, the zero-sized refresh file, or a story. */
  function Stat(stories: seq<HNItem>, path: string, utf8: string -> seq<Byte>): (r: Result<FileInfo, Error>)
    ensures path == "/" ==> r == Ok(DirOf(ROOT_NAME, MODE_DIR))
    ensures path == REFRESH ==> r == Ok(FileOf("refresh", 0, MODE_FILE))
    ensures path == FRONTPAGE ==> r == Ok(DirOf("frontpage", MODE_DIR))
    ensures path !in {"/", REFRESH, FRONTPAGE} ==>
              (r.Ok? <==> StoryIndex(stories, path).Ok?) && (r.Err? ==> r.error == NotFound)
  {
    if path == "/" then Ok(DirOf(ROOT_NAME, MODE_DIR))
    else if path == REFRESH then Ok(FileOf("refresh", 0, MODE_FILE))
    else if path == FRONTPAGE then Ok(DirOf("frontpage", MODE_DIR))
    else match StoryIndex(stories, path)
      case Err(e) => Err(e)
      case Ok(n) => Ok(StoryEntry(n - 1, stories[n - 1], utf8))
  }

  /** The listing of `/frontpage`: one entry per story, numbered from one. */
  function Listing(stories: seq<HNItem>, utf8: string -> seq<Byte>): (r: seq<FileInfo>)
    ensures |r| == |stories|
    decreases |stories|
  {
    if stories == [] then []
    else Listing(stories[..|stories| - 1], utf8) + [StoryEntry(|stories| - 1, stories[|stories| - 1], utf8)]
  }

  /** The listing of one more story ends with that story's entry. */
  lemma ListingStep(stories: seq<HNItem>, i: nat, utf8: string -> seq<Byte>)
    requires i < |stories|
    ensures Listing(stories[..i + 1], utf8) == Listing(stories[..i], utf8) + [StoryEntry(i, stories[i], utf8)]
  {
    assert stories[..i + 1][..i] == stories[..i];
  }

  lemma {:induction false} ListingEntries(stories: seq<HNItem>, utf8: string -> seq<Byte>)
    ensures forall i :: 0 <= i < |stories| ==> Listing(stories, utf8)[i] == StoryEntry(i, stories[i], utf8)
    decreases |stories|
  {
    if stories != [] {
      var init := stories[..|stories| - 1];
      ListingEntries(init, utf8);
      var l := Listing(stories, utf8);
      assert l == Listing(init, utf8) + [StoryEntry(|init|, stories[|init|], utf8)];
      forall i | 0 <= i < |stories|
        ensures l[i] == StoryEntry(i, stories[i], utf8)
      {
        if i < |init| {
          assert init[i] == stories[i];
        }
      }
    }
  }

  /** `readdir`: the two fixed entries of the root, the story listing, or `NotFound`. */
  function Readdir(stories: seq<HNItem>, path: string, utf8: string -> seq<Byte>): (r: Result<seq<FileInfo>, Error>)
    ensures path == "/" ==> r == Ok([FileOf("refresh", 0, MODE_FILE), DirOf("frontpage", MODE_DIR)])
    ensures path == FRONTPAGE ==> r == Ok(Listing(stories, utf8))
    ensures path != "/" && path != FRONTPAGE ==> r == Err(NotFound)
  {
    if path == "/" then Ok([FileOf("refresh", 0, MODE_FILE), DirOf("frontpage", MODE_DIR)])
    else if path == FRONTPAGE then Ok(Listing(stories, utf8))
    else Err(NotFound)
  }

  /** The listing agrees with `stat` and `read`: the i-th entry is what `stat` gives for the
      story's path, and its size is the length of what `read` returns for it. */
  lemma ListingAgreesWithStatAndRead(stories: seq<HNItem>, utf8: string -> seq<Byte>, i: nat)
    requires i < |stories| && |stories| < 0x1_0000_0000
    requires |utf8(StoryToMarkdown(i, stories[i]))| < 0x1_0000_0000
    ensures Stat(stories, StoryPath(i + 1), utf8).Ok?
    ensures Readdir(stories, FRONTPAGE, utf8).value[i] == Stat(stories, StoryPath(i + 1), utf8).value
    ensures Stat(stories, StoryPath(i + 1), utf8).value.size as int
            == |ReadStory(stories, StoryPath(i + 1), utf8).value|
  {
    ListingEntries(stories, utf8);
    StoryIndexOfStoryPath(stories, i);
    assert StoryPath(i + 1) !in {"/", REFRESH, FRONTPAGE} by {
      assert StoryPath(i + 1)[..11] == FRONTPAGE_PREFIX;
    }
  }

  /** The mutators other than writing `/refresh` are refused; `chmod` is accepted and ignored. */
  function Create(path: string): Result<(), Error> { Err(PermissionDenied) }
  function Mkdir(path: string, perm: Nat32): Result<(), Error> { Err(PermissionDenied) }
  function Remove(path: string): Result<(), Error> { Err(PermissionDenied) }
  function RemoveAll(path: string): Result<(), Error> { Err(PermissionDenied) }
  function Rename(oldPath: string, newPath: string): Result<(), Error> { Err(PermissionDenied) }
  function Chmod(path: string, mode: Nat32): Result<(), Error> { Ok(()) }

  lemma MutatorsRefused(path: string, other: string, mode: Nat32)
    ensures Create(path) == Err(PermissionDenied) && Mkdir(path, mode) == Err(PermissionDenied)
    ensures Remove(path) == Err(PermissionDenied) && RemoveAll(path) == Err(PermissionDenied)
    ensures Rename(path, other) == Err(PermissionDenied) && Chmod(path, mode).Ok?
  {
  }

  const README := "HackerNewsFS - Access Hacker News stories as files\n\nUsage:\n"
    + "- cat /hackernews/refresh - Refresh story list from HN\n"
    + "- ls /hackernews/frontpage/ - List all stories\n"
    + "- cat /hackernews/frontpage/1.md - Read story #1\n"
    + "- cat /hackernews/frontpage/2.md - Read story #2\n"
    + "etc.\n"

  /** The one configuration parameter the plugin advertises. */
  const CONFIG_PARAMS: seq<ConfigParameter> :=
    [ConfigParameter("max_stories", "int", false, "30", "Maximum number of stories to fetch")]

  class HackerNewsFs {
    var stories: seq<HNItem>

    /** `HackerNewsFS::default()`: no stories yet. */
    constructor()
      ensures stories == []
    {
      stories := [];
    }

    /** `fetch_top_stories`: on success the list becomes the fetched stories among the first
        `MAX_STORIES` ids; on failure it is left as it was. */
    method Refresh(net: Net) returns (r: Result<(), Error>)
      modifies this
      ensures Refreshed(net).Ok? ==> r.Ok? && stories == Refreshed(net).value
      ensures Refreshed(net).Err? ==> r == Err(Refreshed(net).error) && stories == old(stories)
    {
      var top := TopStories(net);
      if top.Err? {
        return Err(top.error);
      }
      var ids := top.value;
      var limit := if |ids| <= MAX_STORIES then |ids| else MAX_STORIES;
      var fetched: seq<HNItem> := [];
      var i := 0;
      while i < limit
        invariant 0 <= i <= limit
        invariant fetched == Collected(net, ids[..i])
      {
        assert ids[..i + 1][..i] == ids[..i];
        var story := FetchStory(net, ids[i]);
        if story.Ok? {
          fetched := fetched + [story.value];
        }
        i := i + 1;
      }
      assert ids[..limit] == Take(ids, MAX_STORIES);
      stories := fetched;
      r := Ok(());
    }

    /** `initialize`: the initial fetch; its failure fails initialisation. */
    method Initialize(config: Config, net: Net) returns (r: Result<(), Error>)
      modifies this
      ensures Refreshed(net).Ok? ==> r.Ok? && stories == Refreshed(net).value
      ensures Refreshed(net).Err? ==> r == Err(Refreshed(net).error) && stories == old(stories)
    {
      r := Refresh(net);
    }

    /** `read`: reading `/refresh` refreshes and reports the new count; any other path reads a
        story of the current list. The offset and size are ignored. */
    method Read(path: string, offset: I64, size: I64, net: Net, utf8: string -> seq<Byte>)
      returns (r: Result<seq<Byte>, Error>)
      modifies this
      ensures path == REFRESH && Refreshed(net).Ok? ==>
                stories == Refreshed(net).value && r == Ok(utf8(RefreshMessage(|stories|)))
      ensures path == REFRESH && Refreshed(net).Err? ==>
                stories == old(stories) && r == Err(Refreshed(net).error)
      ensures path != REFRESH ==> stories == old(stories) && r == ReadStory(stories, path, utf8)
    {
      if path == REFRESH {
        var done := Refresh(net);
        if done.Err? {
          return Err(done.error);
        }
        return Ok(utf8(RefreshMessage(|stories|)));
      }
      r := ReadStory(stories, path, utf8);
    }

    /** `write`: writing `/refresh` refreshes and returns the byte length of the report; any
        other path is refused without touching the list. */
    method Write(path: string, data: seq<Byte>, offset: I64, net: Net, utf8: string -> seq<Byte>)
      returns (r: Result<I64, Error>)
      modifies this
      ensures path == REFRESH && Refreshed(net).Ok? ==>
                stories == Refreshed(net).value && r == Ok(UsizeAsI64(|utf8(RefreshMessage(|stories|))|))
      ensures path == REFRESH && Refreshed(net).Err? ==>
                stories == old(stories) && r == Err(Refreshed(net).error)
      ensures path != REFRESH ==> stories == old(stories) && r == Err(PermissionDenied)
    {
      if path == REFRESH {
        var done := Refresh(net);
        if done.Err? {
          return Err(done.error);
        }
        return Ok(UsizeAsI64(|utf8(RefreshMessage(|stories|))|));
      }
      r := Err(PermissionDenied);
    }

    /** The `/frontpage` listing, built entry by entry. */
    method ReaddirFrontpage(utf8: string -> seq<Byte>) returns (entries: seq<FileInfo>)
      ensures entries == Listing(stories, utf8)
    {
      entries := [];
      var i := 0;
      while i < |stories|
        invariant 0 <= i <= |stories|
        invariant entries == Listing(stories[..i], utf8)
      {
        ListingStep(stories, i, utf8);
        entries := entries + [StoryEntry(i, stories[i], utf8)];
        i := i + 1;
      }
      assert stories[..i] == stories;
    }
  }

  /** Reading `/frontpage/<k + 1>.md` gives the page of the story at zero-based `k`, and nothing
      when the list is shorter. */
  lemma ReadOfStoryPath(stories: seq<HNItem>, k: nat, utf8: string -> seq<Byte>)
    requires |stories| < 0x1_0000_0000
    ensures StoryPath(k + 1) != REFRESH
    ensures k < |stories| ==> ReadStory(stories, StoryPath(k + 1), utf8) == Ok(utf8(StoryToMarkdown(k, stories[k])))
    ensures k >= |stories| ==> ReadStory(stories, StoryPath(k + 1), utf8) == Err(NotFound)
  {
    assert |StoryPath(k + 1)| > |REFRESH|;
    if k < |stories| {
      StoryIndexOfStoryPath(stories, k);
    } else {
      StoryIndexPastEnd(stories, k);
    }
  }

  /** After a successful refresh every story of the new list can be read at `/frontpage/<n>.md`,
      numbered from one, and no number past the list can. */
  method RefreshThenRead(fs: HackerNewsFs, net: Net, utf8: string -> seq<Byte>, k: nat)
    returns (r: Result<seq<Byte>, Error>)
    modifies fs
    requires Refreshed(net).Ok?
    ensures k < |fs.stories| ==> r == Ok(utf8(StoryToMarkdown(k, fs.stories[k])))
    ensures |fs.stories| <= MAX_STORIES
    ensures k >= |fs.stories| ==> r == Err(NotFound)
  {
    var done := fs.Refresh(net);
    RefreshedAtMostMax(net);
    ReadOfStoryPath(fs.stories, k, utf8);
    r := fs.Read(StoryPath(k + 1), 0, 0, net, utf8);
  }
}
