// The `http` built-in: `http set base|header|timeout ...` configures the
// shell's persistent client, and `http METHOD URL [options]` parses its
// options, sends one request and prints the response. The network is the
// parameter `send`; validating JSON is `jsonError` (`None` for valid text,
// otherwise the parser's message); `float()` is `parseFloat`; serialising the
// response for `-o` is `dumps`.
module ShellHttp {
  import opened Wrappers
  import opened ShellCore
  import Text

  /** What an HttpClient carries from one command to the next. */
  datatype ClientConfig = ClientConfig(baseUrl: Option<string>, defaultHeaders: map<string, string>, timeout: real)

  /** The client's persistent configuration. */
  class HttpClient {
    var baseUrl: Option<string>
    var defaultHeaders: map<string, string>
    var timeout: real

    function Config(): ClientConfig
      reads this
    {
      ClientConfig(baseUrl, defaultHeaders, timeout)
    }

    constructor()
      ensures baseUrl.None? && defaultHeaders == map[] && timeout == 30.0
    {
      baseUrl := None;
      defaultHeaders := map[];
      timeout := 30.0;
    }

    /** `set_timeout`: stores the parsed duration, or reports why the text is not one and
        leaves the client alone. */
    method SetTimeout(text: string, parseFloat: string -> Result<real, string>) returns (err: Option<string>)
      modifies this
      ensures ParseTimeout(text, parseFloat).Ok? ==>
                err.None? && timeout == ParseTimeout(text, parseFloat).value
                && baseUrl == old(baseUrl) && defaultHeaders == old(defaultHeaders)
      ensures ParseTimeout(text, parseFloat).Err? ==>
                err == Some(ParseTimeout(text, parseFloat).error) && unchanged(this)
    {
      var t := ParseTimeout(text, parseFloat);
      if t.Err? {
        return Some(t.error);
      }
      timeout := t.value;
      err := None;
    }
  }

  /** `url.rstrip('/')`. */
  function TrimTrailingSlashes(url: string): (r: string)
    ensures |r| <= |url| && url[..|r|] == r
    ensures !Text.EndsWith(r, "/")
    ensures forall i :: |r| <= i < |url| ==> url[i] == '/'
    decreases |url|
  {
    if url != [] && url[|url| - 1] == '/' then TrimTrailingSlashes(url[..|url| - 1]) else url
  }

  /** `set_timeout`'s reading of a duration: milliseconds, seconds, or plain seconds. */
  function ParseTimeout(text: string, parseFloat: string -> Result<real, string>): (r: Result<real, string>)
    ensures var t := Text.TrimSpace(Text.LowerText(text));
            && (Text.EndsWith(t, "ms") ==>
                  (r.Ok? <==> parseFloat(t[..|t| - 2]).Ok?) && (r.Ok? ==> r.value == parseFloat(t[..|t| - 2]).value / 1000.0))
            && (!Text.EndsWith(t, "ms") && Text.EndsWith(t, "s") ==> r == parseFloat(t[..|t| - 1]))
            && (!Text.EndsWith(t, "s") ==> r == parseFloat(t))
  {
    var t := Text.TrimSpace(Text.LowerText(text));
    if Text.EndsWith(t, "ms") then
      match parseFloat(t[..|t| - 2])
      case Ok(v) => Ok(v / 1000.0)
      case Err(e) => Err(e)
    else if Text.EndsWith(t, "s") then parseFloat(t[..|t| - 1])
    else parseFloat(t)
  }

  /** What `_handle_set_command` replies and the configuration it leaves: `args` are all of
      the command's arguments, the first being `set`. */
  function SetReply(c: ClientConfig, args: seq<string>, parseFloat: string -> Result<real, string>)
    : (r: (Reply, ClientConfig))
    ensures |args| < 3 ==> r.0.code == 1 && r.1 == c
    ensures |args| >= 3 && args[1] == "base" ==>
              r == (Reply(0, "Base URL set to: " + args[2] + "\n", ""), c.(baseUrl := Some(TrimTrailingSlashes(args[2]))))
    ensures |args| >= 3 && args[1] == "header" ==>
              if |args| < 4 then r.0.code == 1 && r.1 == c
              else r == (Reply(0, "Header set: " + args[2] + ": " + args[3] + "\n", ""),
                         c.(defaultHeaders := c.defaultHeaders[args[2] := args[3]]))
    ensures |args| >= 3 && args[1] == "timeout" ==>
              match ParseTimeout(args[2], parseFloat)
              case Ok(v) => r == (Reply(0, "Timeout set to: " + args[2] + "\n", ""), c.(timeout := v))
              case Err(e) => r == (Reply(1, "", "http set timeout: invalid timeout '" + args[2] + "': " + e + "\n"), c)
    ensures |args| >= 3 && args[1] !in {"base", "header", "timeout"} ==>
              r == (Reply(1, "", "http set: unknown subcommand '" + args[1] + "'\nValid subcommands: base, header, timeout\n"), c)
  {
    if |args| < 3 then (Reply(1, "", "http set: missing arguments\nUsage: http set base|header|timeout <args>\n"), c)
    else if args[1] == "base" then
      (Reply(0, "Base URL set to: " + args[2] + "\n", ""), c.(baseUrl := Some(TrimTrailingSlashes(args[2]))))
    else if args[1] == "header" then
      if |args| < 4 then (Reply(1, "", "http set header: missing value\nUsage: http set header <key> <value>\n"), c)
      else (Reply(0, "Header set: " + args[2] + ": " + args[3] + "\n", ""), c.(defaultHeaders := c.defaultHeaders[args[2] := args[3]]))
    else if args[1] == "timeout" then
      match ParseTimeout(args[2], parseFloat)
      case Ok(v) => (Reply(0, "Timeout set to: " + args[2] + "\n", ""), c.(timeout := v))
      case Err(e) => (Reply(1, "", "http set timeout: invalid timeout '" + args[2] + "': " + e + "\n"), c)
    else (Reply(1, "", "http set: unknown subcommand '" + args[1] + "'\nValid subcommands: base, header, timeout\n"), c)
  }

  /** `_handle_set_command` on the shell's client. */
  method SetCommand(client: HttpClient, args: seq<string>, parseFloat: string -> Result<real, string>)
      returns (r: Reply)
    modifies client
    ensures (r, client.Config()) == SetReply(old(client.Config()), args, parseFloat)
  {
    if |args| < 3 {
      return Reply(1, "", "http set: missing arguments\nUsage: http set base|header|timeout <args>\n");
    }
    var sub := args[1];
    if sub == "base" {
      client.baseUrl := Some(TrimTrailingSlashes(args[2]));
      return Reply(0, "Base URL set to: " + args[2] + "\n", "");
    } else if sub == "header" {
      if |args| < 4 {
        return Reply(1, "", "http set header: missing value\nUsage: http set header <key> <value>\n");
      }
      client.defaultHeaders := client.defaultHeaders[args[2] := args[3]];
      return Reply(0, "Header set: " + args[2] + ": " + args[3] + "\n", "");
    } else if sub == "timeout" {
      var err := client.SetTimeout(args[2], parseFloat);
      if err.Some? {
        return Reply(1, "", "http set timeout: invalid timeout '" + args[2] + "': " + err.value + "\n");
      }
      return Reply(0, "Timeout set to: " + args[2] + "\n", "");
    }
    r := Reply(1, "", "http set: unknown subcommand '" + sub + "'\nValid subcommands: base, header, timeout\n");
  }

  /** What the option loop collects. */
  datatype Options = Options(headers: map<string, string>, query: map<string, string>, body: Option<string>,
                             fail: bool, showHeaders: bool, outputVar: Option<string>, stdoutOnly: bool)

  const NO_OPTIONS := Options(map[], map[], None, false, false, None, false)

  /** The option loop of `_handle_http_request` from argument `i` on, with `o` collected so far; the
      error is the text written to standard error. */
  function ParseFrom(args: seq<string>, i: nat, o: Options, jsonError: string -> Option<string>): Result<Options, string>
    decreases |args| - i
  {
    if i >= |args| then Ok(o)
    else
      var arg := args[i];
      var more := i + 1 < |args|;
      if arg == "-H" && more then
        var h := args[i + 1];
        var c := Text.IndexOfChar(h, ':');
        if c < 0 then Err("http: invalid header format '" + h + "' (expected key:value)\n")
        else ParseFrom(args, i + 2, o.(headers := o.headers[Text.TrimSpace(h[..c]) := Text.TrimSpace(h[c + 1..])]), jsonError)
      else if arg == "-j" && more then
        match jsonError(args[i + 1])
        case Some(e) => Err("http: invalid JSON: " + e + "\n")
        case None =>
          ParseFrom(args, i + 2, o.(body := Some(args[i + 1]), headers := o.headers["Content-Type" := "application/json"]), jsonError)
      else if arg == "-d" && more then
        ParseFrom(args, i + 2, o.(body := Some(args[i + 1])), jsonError)
      else if arg == "-q" && more then
        var q := args[i + 1];
        var e := Text.IndexOfChar(q, '=');
        if e < 0 then Err("http: invalid query format '" + q + "' (expected key=value)\n")
        else ParseFrom(args, i + 2, o.(query := o.query[q[..e] := q[e + 1..]]), jsonError)
      else if arg == "-f" then ParseFrom(args, i + 1, o.(fail := true), jsonError)
      else if arg == "-i" then ParseFrom(args, i + 1, o.(showHeaders := true), jsonError)
      else if arg == "-o" && more then ParseFrom(args, i + 2, o.(outputVar := Some(args[i + 1])), jsonError)
      else if arg == "--stdout" then ParseFrom(args, i + 1, o.(stdoutOnly := true), jsonError)
      else Err("http: unknown option '" + arg + "'\n")
  }

  /** The option loop, advancing past each option and its value. */
  method ParseOptions(args: seq<string>, jsonError: string -> Option<string>) returns (r: Result<Options, string>)
    ensures r == ParseFrom(args, 0, NO_OPTIONS, jsonError)
  {
    var o := NO_OPTIONS;
    var i := 0;
    while i < |args|
      invariant 0 <= i <= |args| + 1
      invariant ParseFrom(args, i, o, jsonError) == ParseFrom(args, 0, NO_OPTIONS, jsonError)
      decreases |args| - i
    {
      var arg := args[i];
      if arg == "-H" && i + 1 < |args| {
        var h := args[i + 1];
        var c := Text.IndexOfChar(h, ':');
        if c < 0 {
          return Err("http: invalid header format '" + h + "' (expected key:value)\n");
        }
        o := o.(headers := o.headers[Text.TrimSpace(h[..c]) := Text.TrimSpace(h[c + 1..])]);
        i := i + 2;
      } else if arg == "-j" && i + 1 < |args| {
        var e := jsonError(args[i + 1]);
        if e.Some? {
          return Err("http: invalid JSON: " + e.value + "\n");
        }
        o := o.(body := Some(args[i + 1]), headers := o.headers["Content-Type" := "application/json"]);
        i := i + 2;
      } else if arg == "-d" && i + 1 < |args| {
        o := o.(body := Some(args[i + 1]));
        i := i + 2;
      } else if arg == "-q" && i + 1 < |args| {
        var q := args[i + 1];
        var e := Text.IndexOfChar(q, '=');
        if e < 0 {
          return Err("http: invalid query format '" + q + "' (expected key=value)\n");
        }
        o := o.(query := o.query[q[..e] := q[e + 1..]]);
        i := i + 2;
      } else if arg == "-f" {
        o := o.(fail := true);
        i := i + 1;
      } else if arg == "-i" {
        o := o.(showHeaders := true);
        i := i + 1;
      } else if arg == "-o" && i + 1 < |args| {
        o := o.(outputVar := Some(args[i + 1]));
        i := i + 2;
      } else if arg == "--stdout" {
        o := o.(stdoutOnly := true);
        i := i + 1;
      } else {
        return Err("http: unknown option '" + arg + "'\n");
      }
    }
    r := Ok(o);
  }

  /** A header value is split at its first `:` and both sides are trimmed; later colons stay in the
      value. */
  lemma HeaderAtFirstColon(name: string, value: string, jsonError: string -> Option<string>)
    requires ':' !in name
    ensures ParseFrom(["-H", name + ":" + value], 0, NO_OPTIONS, jsonError)
            == Ok(NO_OPTIONS.(headers := map[Text.TrimSpace(name) := Text.TrimSpace(value)]))
  {
    var h := name + ":" + value;
    assert h[..|name|] == name && h[|name|] == ':';
    assert Text.IndexOfChar(h, ':') == |name|;
    assert h[|name| + 1..] == value;
  }

  /** The last of `-d` and `-j` decides the body; `-j` sets the JSON content type, which a later `-d`
      does not remove. */
  lemma LaterBodyWins(a: string, b: string, jsonError: string -> Option<string>)
    requires jsonError(b).None?
    ensures ParseFrom(["-d", a, "-j", b], 0, NO_OPTIONS, jsonError)
            == Ok(NO_OPTIONS.(body := Some(b), headers := map["Content-Type" := "application/json"]))
    ensures ParseFrom(["-j", b, "-d", a], 0, NO_OPTIONS, jsonError)
            == Ok(NO_OPTIONS.(body := Some(a), headers := map["Content-Type" := "application/json"]))
  {
    var o1 := NO_OPTIONS.(body := Some(a));
    assert ParseFrom(["-d", a, "-j", b], 2, o1, jsonError)
           == ParseFrom(["-d", a, "-j", b], 4, o1.(body := Some(b), headers := o1.headers["Content-Type" := "application/json"]), jsonError);
    var o2 := NO_OPTIONS.(body := Some(b), headers := map["Content-Type" := "application/json"]);
    assert ParseFrom(["-j", b, "-d", a], 0, NO_OPTIONS, jsonError) == ParseFrom(["-j", b, "-d", a], 2, o2, jsonError);
    assert ParseFrom(["-j", b, "-d", a], 2, o2, jsonError) == ParseFrom(["-j", b, "-d", a], 4, o2.(body := Some(a)), jsonError);
  }

  /** An option that takes a value but comes last, and any argument that is not an option, is reported
      as an unknown option. */
  lemma UnknownOption(before: seq<string>, arg: string, rest: seq<string>, o: Options, jsonError: string -> Option<string>)
    requires arg in {"-H", "-j", "-d", "-q", "-o"}
    ensures ParseFrom([arg], 0, o, jsonError) == Err("http: unknown option '" + arg + "'\n")
    ensures rest != [] && rest[0] !in {"-H", "-j", "-d", "-q", "-f", "-i", "-o", "--stdout"} ==>
              ParseFrom(rest, 0, o, jsonError) == Err("http: unknown option '" + rest[0] + "'\n")
  {
  }

  /** Flags alone always parse, and each is set exactly when it is given. */
  lemma {:induction false} FlagsOnly(args: seq<string>, i: nat, o: Options, jsonError: string -> Option<string>)
    requires i <= |args|
    requires forall k :: i <= k < |args| ==> args[k] in {"-f", "-i", "--stdout"}
    ensures ParseFrom(args, i, o, jsonError) ==
              Ok(o.(fail := o.fail || "-f" in args[i..],
                    showHeaders := o.showHeaders || "-i" in args[i..],
                    stdoutOnly := o.stdoutOnly || "--stdout" in args[i..]))
    decreases |args| - i
  {
    if i < |args| {
      var arg := args[i];
      var o' := if arg == "-f" then o.(fail := true)
                else if arg == "-i" then o.(showHeaders := true)
                else o.(stdoutOnly := true);
      assert ParseFrom(args, i, o, jsonError) == ParseFrom(args, i + 1, o', jsonError);
      FlagsOnly(args, i + 1, o', jsonError);
      assert args[i..] == [arg] + args[i + 1..];
    } else {
      assert args[i..] == [];
    }
  }

  /** The request handed to the client. */
  datatype RequestData = RequestData(verb: string, url: string, headers: Option<map<string, string>>,
                                     body: Option<string>, query: Option<map<string, string>>)

  /** A response: status, headers in the order the server sent them, the decoded body, and the
      whole-millisecond duration. */
  datatype Response = Response(status: int, headers: seq<(string, string)>, text: string, durationMs: int)

  predicate IsOk(resp: Response) { 200 <= resp.status < 300 }

  /** One line per response header. */
  function HeaderLines(hs: seq<(string, string)>): string
    decreases |hs|
  {
    if hs == [] then ""
    else HeaderLines(hs[..|hs| - 1]) + hs[|hs| - 1].0 + ": " + hs[|hs| - 1].1 + "\n"
  }

  /** What a response prints: the raw body with `--stdout`, otherwise a status line, the headers when
      `-i` is given, and the body ended by a newline. */
  function Rendered(resp: Response, o: Options): string
  {
    if o.stdoutOnly then resp.text
    else
      "HTTP " + Text.IntToString(resp.status) + " (" + Text.IntToString(resp.durationMs) + "ms)\n"
      + (if o.showHeaders then HeaderLines(resp.headers) + "\n" else "")
      + resp.text + (if resp.text != [] && !Text.EndsWith(resp.text, "\n") then "\n" else "")
  }

  /** Printed output ends with a newline unless it is a raw or empty body. */
  lemma RenderedEndsLines(resp: Response, o: Options)
    requires !o.stdoutOnly
    ensures Text.EndsWith(Rendered(resp, o), "\n")
    ensures Text.StartsWith(Rendered(resp, o), "HTTP ")
  {
    var status := "HTTP " + Text.IntToString(resp.status) + " (" + Text.IntToString(resp.durationMs) + "ms)\n";
    var mid := if o.showHeaders then HeaderLines(resp.headers) + "\n" else "";
    var tail := resp.text + (if resp.text != [] && !Text.EndsWith(resp.text, "\n") then "\n" else "");
    assert Rendered(resp, o) == status + mid + tail;
    assert status[..5] == "HTTP " && status[|status| - 1] == '\n';
    assert mid != [] ==> mid[|mid| - 1] == '\n';
    assert tail != [] ==> tail[|tail| - 1] == '\n' by {
      if tail != [] && resp.text != [] && Text.EndsWith(resp.text, "\n") {
        assert tail == resp.text;
        assert resp.text[|resp.text| - 1..] == "\n";
      }
    }
    LinesJoined(status, mid, tail);
  }

  /** Three pieces, the first a status line, each ending with a newline when not empty. */
  lemma LinesJoined(status: string, mid: string, tail: string)
    requires |status| >= 5 && status[..5] == "HTTP " && status[|status| - 1] == '\n'
    requires mid != [] ==> mid[|mid| - 1] == '\n'
    requires tail != [] ==> tail[|tail| - 1] == '\n'
    ensures Text.EndsWith(status + mid + tail, "\n") && Text.StartsWith(status + mid + tail, "HTTP ")
  {
    var r := status + mid + tail;
    assert r[..5] == status[..5];
    if tail != [] {
      assert r[|r| - 1] == tail[|tail| - 1];
    } else if mid != [] {
      assert r[|r| - 1] == mid[|mid| - 1];
    } else {
      assert r[|r| - 1] == status[|status| - 1];
    }
    assert r[|r| - 1..] == [r[|r| - 1]];
  }

  /** The printing of a response, its header loop included. */
  method Render(resp: Response, o: Options) returns (out: string)
    ensures out == Rendered(resp, o)
  {
    if o.stdoutOnly {
      return resp.text;
    }
    out := "HTTP " + Text.IntToString(resp.status) + " (" + Text.IntToString(resp.durationMs) + "ms)\n";
    if o.showHeaders {
      var lines := "";
      var k := 0;
      while k < |resp.headers|
        invariant 0 <= k <= |resp.headers|
        invariant lines == HeaderLines(resp.headers[..k])
      {
        assert resp.headers[..k + 1][..k] == resp.headers[..k];
        lines := lines + resp.headers[k].0 + ": " + resp.headers[k].1 + "\n";
        k := k + 1;
      }
      assert resp.headers[..|resp.headers|] == resp.headers;
      out := out + (lines + "\n");
    }
    var body := resp.text + (if resp.text != [] && !Text.EndsWith(resp.text, "\n") then "\n" else "");
    out := out + body;
  }

  /** The request the parsed options describe: empty header and query tables are sent as absent. */
  function RequestOf(args: seq<string>, o: Options): RequestData
    requires |args| >= 2
  {
    RequestData(Text.UpperText(args[0]), args[1], if o.headers == map[] then None else Some(o.headers), o.body,
                if o.query == map[] then None else Some(o.query))
  }

  /** `_handle_http_request`: the reply, and the variable `-o` sets (a variable named by an empty text
      is not set). */
  function RequestReply(args: seq<string>, jsonError: string -> Option<string>,
                        send: RequestData -> Result<Response, string>, dumps: Response -> string)
    : (r: (Reply, Option<(string, string)>))
    ensures |args| < 2 ==> r.0.code == 1 && r.1.None?
    ensures r.0.code == 0 || r.0.code == 1
    ensures r.1.Some? ==> r.0.err == ""
  {
    if |args| < 2 then (Reply(1, "", "http: missing URL\nUsage: http METHOD URL [options]\n"), None)
    else
      match ParseFrom(args[2..], 0, NO_OPTIONS, jsonError)
      case Err(e) => (Reply(1, "", e), None)
      case Ok(o) =>
        match send(RequestOf(args, o))
        case Err(e) => (Reply(1, "", "http: request failed: " + e + "\n"), None)
        case Ok(resp) =>
          var code := if o.fail && !IsOk(resp) then 1 else 0;
          var saved := if o.outputVar.Some? && o.outputVar.value != [] then Some((o.outputVar.value, dumps(resp))) else None;
          (Reply(code, Rendered(resp, o), ""), saved)
  }

  /** With `-f` a response outside 2xx fails the command; without it every response succeeds. */
  lemma FailOnError(verb: string, url: string, flags: seq<string>, jsonError: string -> Option<string>,
                    send: RequestData -> Result<Response, string>, dumps: Response -> string)
    requires forall k :: 0 <= k < |flags| ==> flags[k] in {"-f", "-i", "--stdout"}
    requires send(RequestOf([verb, url] + flags, NO_OPTIONS.(fail := "-f" in flags,
               showHeaders := "-i" in flags, stdoutOnly := "--stdout" in flags))).Ok?
    ensures var resp := send(RequestOf([verb, url] + flags, NO_OPTIONS.(fail := "-f" in flags,
               showHeaders := "-i" in flags, stdoutOnly := "--stdout" in flags))).value;
            RequestReply([verb, url] + flags, jsonError, send, dumps).0.code == (if "-f" in flags && !IsOk(resp) then 1 else 0)
  {
    var args := [verb, url] + flags;
    assert args[2..] == flags;
    FlagsOnly(flags, 0, NO_OPTIONS, jsonError);
    assert flags[0..] == flags;
  }

  /** `cmd_http` with the shell's client: no shell gives 1, no arguments gives 1, `set` configures the
      client, anything else is a request whose `-o` variable lands in the shell's variables. */
  method Http(shell: Shell?, client: HttpClient, args: seq<string>, jsonError: string -> Option<string>,
              parseFloat: string -> Result<real, string>, send: RequestData -> Result<Response, string>,
              dumps: Response -> string) returns (r: Reply)
    modifies shell, client
    ensures shell == null ==> r == Reply(1, "", "http: shell context not available\n")
    ensures shell != null && args == [] ==> r.code == 1 && shell.env == old(shell.env)
    ensures shell != null && args != [] && args[0] == "set" ==>
              shell.env == old(shell.env) && (r, client.Config()) == SetReply(old(client.Config()), args, parseFloat)
    ensures shell != null && args != [] && args[0] != "set" ==>
              var (reply, saved) := RequestReply(args, jsonError, send, dumps);
              r == reply && shell.env == (if saved.Some? then old(shell.env)[saved.value.0 := saved.value.1] else old(shell.env))
              && unchanged(client)
  {
    if shell == null {
      return Reply(1, "", "http: shell context not available\n");
    }
    if args == [] {
      return Reply(1, "", "http: missing arguments\nUsage: http METHOD URL [options] or http set <config>\n");
    }
    if args[0] == "set" {
      r := SetCommand(client, args, parseFloat);
      return;
    }
    if |args| < 2 {
      return Reply(1, "", "http: missing URL\nUsage: http METHOD URL [options]\n");
    }
    var parsed := ParseOptions(args[2..], jsonError);
    if parsed.Err? {
      return Reply(1, "", parsed.error);
    }
    var o := parsed.value;
    var response := send(RequestOf(args, o));
    if response.Err? {
      return Reply(1, "", "http: request failed: " + response.error + "\n");
    }
    var resp := response.value;
    var out := Render(resp, o);
    if o.outputVar.Some? && o.outputVar.value != [] {
      shell.env := shell.env[o.outputVar.value := dumps(resp)];
    }
    r := Reply(if o.fail && !IsOk(resp) then 1 else 0, out, "");
  }
}
