/** Merging the server's own sections into the text of a TOML configuration file. */
module TomlMerge {

  // ----- lines -----

  /** The characters at which text is split into lines. */
  predicate LineBreak(c: char) {
    var n := c as int;
    10 <= n <= 13 || 0x1C <= n <= 0x1E || n == 0x85 || n == 0x2028 || n == 0x2029
  }

  predicate White(c: char) {
    var n := c as int;
    LineBreak(c) || n == 9 || n == 0x1F || n == 0x20 || n == 0xA0 || n == 0x1680 || 0x2000 <= n <= 0x200A
    || n == 0x202F || n == 0x205F || n == 0x3000
  }

  predicate OneLine(s: string) {
    forall i | 0 <= i < |s| :: !LineBreak(s[i])
  }

  predicate AllOneLine(lines: seq<string>) {
    forall i | 0 <= i < |lines| :: OneLine(lines[i])
  }

  /** The length of the first line, without its end. */
  function FirstLine(text: string): (n: nat)
    ensures n <= |text| && OneLine(text[..n]) && (n < |text| ==> LineBreak(text[n]))
  {
    if text == "" || LineBreak(text[0]) then 0
    else
      var n := FirstLine(text[1..]);
      assert text[..n + 1] == [text[0]] + text[1..][..n];
      n + 1
  }

  /** The rest behind a line end; a carriage return with a line feed is one end. */
  function SkipBreak(text: string): (rest: string)
    requires text != ""
    ensures |rest| < |text|
  {
    if text[0] == '\r' && |text| > 1 && text[1] == '\n' then text[2..] else text[1..]
  }

  function SplitLines(text: string): (lines: seq<string>)
    ensures AllOneLine(lines)
    decreases |text|
  {
    if text == "" then []
    else
      var n := FirstLine(text);
      [text[..n]] + if n == |text| then [] else SplitLines(SkipBreak(text[n..]))
  }

  function Joined(lines: seq<string>): string {
    if lines == [] then ""
    else if |lines| == 1 then lines[0]
    else Joined(lines[..|lines| - 1]) + "\n" + lines[|lines| - 1]
  }

  function RightTrimmed(s: string): (trimmed: string)
    ensures trimmed <= s && (trimmed == "" || !White(trimmed[|trimmed| - 1]))
  {
    if s != "" && White(s[|s| - 1]) then RightTrimmed(s[..|s| - 1]) else s
  }

  function LeftTrimmed(s: string): string {
    if s != "" && White(s[0]) then LeftTrimmed(s[1..]) else s
  }

  // ----- section headers -----

  predicate AllWhite(s: string) {
    forall i | 0 <= i < |s| :: White(s[i])
  }

  /** The position of the first closing bracket, or the length. */
  function Bracket(s: string): (n: nat)
    ensures n <= |s| && (n < |s| ==> s[n] == ']') && forall i | 0 <= i < n :: s[i] != ']'
  {
    if s == "" || s[0] == ']' then 0 else 1 + Bracket(s[1..])
  }

  datatype Header = NoHeader | Header(section: string)

  /** The section that a line opens: white space, a bracketed name, white space. */
  function HeaderOf(line: string): Header {
    HeaderIn(LeftTrimmed(line))
  }

  function HeaderIn(body: string): Header {
    if body == "" || body[0] != '[' then NoHeader
    else
      var n := Bracket(body[1..]);
      if n == 0 || n == |body[1..]| || !AllWhite(body[1..][n + 1..]) then NoHeader
      else Header(RightTrimmed(LeftTrimmed(body[1..][..n])))
  }

  /** The section in which a line stands: the one opened by the last header up to it. */
  function SectionAt(lines: seq<string>, i: nat): Header
    requires i < |lines|
  {
    if HeaderOf(lines[i]).Header? then HeaderOf(lines[i])
    else if i == 0 then NoHeader
    else SectionAt(lines, i - 1)
  }

  predicate Removed(lines: seq<string>, i: nat, names: set<string>)
    requires i < |lines|
  {
    SectionAt(lines, i).Header? && SectionAt(lines, i).section in names
  }

  /** The lines outside the named sections, headers of those sections included in them. */
  function Outside(lines: seq<string>, names: set<string>, n: nat): seq<string>
    requires n <= |lines|
  {
    if n == 0 then []
    else Outside(lines, names, n - 1) + if Removed(lines, n - 1, names) then [] else [lines[n - 1]]
  }

  /** `_remove_toml_sections`: one pass with a flag. */
  method RemoveTomlSections(text: string, names: set<string>) returns (result: string)
    ensures result == Joined(Outside(SplitLines(text), names, |SplitLines(text)|))
  {
    hide HeaderOf, SplitLines, Joined;
    var all := SplitLines(text);
    var lines: seq<string> := [];
    var skip := false;
    for i := 0 to |all|
      invariant lines == Outside(all, names, i)
      invariant skip == (i > 0 && Removed(all, i - 1, names))
    {
      var header := HeaderOf(all[i]);
      if header.Header? {
        skip := header.section in names;
      }
      if !skip {
        lines := lines + [all[i]];
      }
    }
    result := Joined(lines);
  }

  // ----- the server block -----

  const SERVER := "mcp_servers.synapse-s2"
  const SERVER_ENV := "mcp_servers.synapse-s2.env"
  const NAMES: set<string> := {SERVER, SERVER_ENV}

  function HexDigit(d: nat): char
    requires d < 16
  {
    if d < 10 then ('0' as int + d) as char else ('a' as int + d - 10) as char
  }

  function Unit(n: nat): string
    requires n < 0x1_0000
  {
    "\\u" + [HexDigit(n / 0x1000), HexDigit(n / 0x100 % 0x10), HexDigit(n / 0x10 % 0x10), HexDigit(n % 0x10)]
  }

  /** A character of a quoted string, with everything outside printable ASCII escaped. */
  function Escaped(c: char): string {
    var n := c as int;
    if c == '\"' then "\\\""
    else if c == '\\' then "\\\\"
    else if c == '\n' then "\\n"
    else if c == '\r' then "\\r"
    else if c == '\t' then "\\t"
    else if n == 8 then "\\b"
    else if n == 12 then "\\f"
    else if 0x20 <= n <= 0x7E then [c]
    else if n < 0x1_0000 then Unit(n)
    else Unit(0xD800 + (n - 0x1_0000) / 0x400) + Unit(0xDC00 + (n - 0x1_0000) % 0x400)
  }

  function EscapedText(s: string): string {
    if s == "" then "" else Escaped(s[0]) + EscapedText(s[1..])
  }

  function TomlString(s: string): string {
    "\"" + EscapedText(s) + "\""
  }

  datatype Setting = Setting(key: string, value: string)

  datatype Server = Server(command: string, env: seq<Setting>)

  /** Keys of the environment are bare names, as the program's own constants are. */
  predicate BareKey(key: string) {
    key != "" && forall i | 0 <= i < |key| ::
      'A' <= key[i] <= 'Z' || 'a' <= key[i] <= 'z' || '0' <= key[i] <= '9' || key[i] == '_' || key[i] == '-'
  }

  predicate ValidServer(server: Server) {
    forall i | 0 <= i < |server.env| :: BareKey(server.env[i].key)
  }

  function EnvLines(env: seq<Setting>): (lines: seq<string>)
    ensures |lines| == |env|
  {
    if env == [] then [] else [env[0].key + " = " + TomlString(env[0].value)] + EnvLines(env[1..])
  }

  function FixedLines(command: string, enabled: bool): seq<string> {
    ["[" + SERVER + "]",
     "command = " + TomlString(command),
     "args = []",
     "startup_timeout_sec = 15",
     "tool_timeout_sec = 30",
     "enabled = " + (if enabled then "true" else "false"),
     "",
     "[" + SERVER_ENV + "]"]
  }

  function BlockLines(server: Server, enabled: bool): seq<string> {
    FixedLines(server.command, enabled) + EnvLines(server.env)
  }

  function Block(server: Server, enabled: bool): string {
    Joined(BlockLines(server, enabled)) + "\n"
  }

  function Cleaned(text: string): string {
    var lines := SplitLines(text);
    RightTrimmed(Joined(Outside(lines, NAMES, |lines|)))
  }

  /** `merge_codex_config_text`. */
  function Merged(text: string, server: Server, enabled: bool): string {
    Cleaned(text) + (if Cleaned(text) == "" then "" else "\n\n") + Block(server, enabled)
  }

  method MergeCodexConfigText(text: string, server: Server, enabled: bool) returns (result: string)
    ensures result == Merged(text, server, enabled)
  {
    var removed := RemoveTomlSections(text, NAMES);
    var cleaned := RightTrimmed(removed);
    var separator := if cleaned != "" then "\n\n" else "";
    result := cleaned + separator + Block(server, enabled);
  }

  // ----- trimming -----

  lemma {:induction false} TrimmedConcat(x: string, y: string)
    ensures AllWhite(y) ==> RightTrimmed(x + y) == RightTrimmed(x)
    ensures RightTrimmed(y) != "" ==> RightTrimmed(x + y) == x + RightTrimmed(y)
    ensures RightTrimmed(y) == "" <==> AllWhite(y)
    decreases |y|
  {
    if y == "" {
      assert x + y == x;
    } else {
      var prefix, last := y[..|y| - 1], y[|y| - 1];
      assert (x + y)[..|x + y| - 1] == x + prefix && (x + y)[|x + y| - 1] == last;
      assert y == prefix + [last];
      TrimmedConcat(x, prefix);
    }
  }

  /** The lines without trailing white space at the end of the text. */
  function Trim(lines: seq<string>): seq<string> {
    if lines == [] then []
    else
      var prefix, last := lines[..|lines| - 1], RightTrimmed(lines[|lines| - 1]);
      if last == "" then Trim(prefix) else prefix + [last]
  }

  lemma {:induction false} TrimmedJoin(lines: seq<string>)
    ensures RightTrimmed(Joined(lines)) == Joined(Trim(lines))
    decreases |lines|
  {
    if lines != [] {
      var prefix, last := lines[..|lines| - 1], lines[|lines| - 1];
      TrimmedConcat("", last);
      assert "" + last == last;
      if |lines| > 1 {
        TrimmedJoin(prefix);
        TrimmedConcat(Joined(prefix) + "\n", last);
        TrimmedConcat(Joined(prefix), "\n");
        if RightTrimmed(last) != "" {
          assert (prefix + [RightTrimmed(last)])[..|lines| - 1] == prefix;
        }
      }
    }
  }

  /** No line opens one of the server's sections. */
  predicate Foreign(lines: seq<string>) {
    forall i | 0 <= i < |lines| :: HeaderOf(lines[i]).Header? ==> HeaderOf(lines[i]).section !in NAMES
  }

  lemma {:induction false} LeftTrimmedConcat(t: string, w: string)
    requires t != "" && !White(t[|t| - 1])
    ensures LeftTrimmed(t + w) == LeftTrimmed(t) + w && LeftTrimmed(t) != ""
  {
    if White(t[0]) {
      assert (t + w)[1..] == t[1..] + w;
      LeftTrimmedConcat(t[1..], w);
    }
  }

  lemma {:induction false} BracketConcat(t: string, w: string)
    requires AllWhite(w)
    ensures Bracket(t + w) == if Bracket(t) < |t| then Bracket(t) else |t + w|
    decreases |t|
  {
    if t == "" {
      assert t + w == w;
      NoBracketInWhite(w);
    } else if t[0] != ']' {
      assert (t + w)[1..] == t[1..] + w;
      BracketConcat(t[1..], w);
    }
  }

  lemma {:induction false} NoBracketInWhite(w: string)
    requires AllWhite(w)
    ensures Bracket(w) == |w|
  {
    if w != "" {
      NoBracketInWhite(w[1..]);
    }
  }

  lemma HeaderInTrims(body: string, w: string)
    requires body != "" && AllWhite(w)
    ensures HeaderIn(body + w) == HeaderIn(body)
  {
    var inner := body[1..];
    assert (body + w)[0] == body[0] && (body + w)[1..] == inner + w;
    BracketConcat(inner, w);
    var n := Bracket(inner);
    if n < |inner| {
      assert (inner + w)[n + 1..] == inner[n + 1..] + w && (inner + w)[..n] == inner[..n];
      WhiteConcat(inner[n + 1..], w);
    }
    hide RightTrimmed, LeftTrimmed, Bracket, AllWhite;
  }

  /** White space at the end of a line does not matter for the section it opens. */
  lemma HeaderTrims(line: string)
    ensures HeaderOf(RightTrimmed(line)) == HeaderOf(line)
  {
    var t := RightTrimmed(line);
    var w := line[|t|..];
    assert line == t + w;
    RestIsWhite(line);
    hide HeaderIn, Bracket, RightTrimmed, LeftTrimmed;
    if t == "" {
      AllWhiteTrims(line);
      AllWhiteTrims(t);
    } else {
      LeftTrimmedConcat(t, w);
      HeaderInTrims(LeftTrimmed(t), w);
    }
  }

  lemma WhiteConcat(a: string, b: string)
    ensures AllWhite(a + b) <==> AllWhite(a) && AllWhite(b)
  {
    if AllWhite(a + b) {
      assert forall i | 0 <= i < |a| :: (a + b)[i] == a[i];
      assert forall i | 0 <= i < |b| :: (a + b)[|a| + i] == b[i];
    }
  }

  lemma {:induction false} RestIsWhite(line: string)
    ensures AllWhite(line[|RightTrimmed(line)|..])
  {
    if line != "" && White(line[|line| - 1]) {
      var prefix := line[..|line| - 1];
      RestIsWhite(prefix);
      assert line[|RightTrimmed(line)|..] == prefix[|RightTrimmed(prefix)|..] + [line[|line| - 1]];
    }
  }

  lemma {:induction false} AllWhiteTrims(line: string)
    requires AllWhite(line)
    ensures LeftTrimmed(line) == "" && HeaderOf(line) == NoHeader
  {
    if line != "" {
      AllWhiteTrims(line[1..]);
    }
  }

  lemma {:induction false} TrimKeeps(lines: seq<string>)
    requires Foreign(lines) && AllOneLine(lines)
    ensures Foreign(Trim(lines)) && AllOneLine(Trim(lines))
    ensures Trim(lines) != [] ==>
              var last := Trim(lines)[|Trim(lines)| - 1]; last != "" && RightTrimmed(last) == last
    decreases |lines|
  {
    if lines != [] {
      hide HeaderOf, RightTrimmed, White, LineBreak;
      var prefix, last := lines[..|lines| - 1], lines[|lines| - 1];
      HeaderTrims(last);
      TrimKeeps(prefix);
      TrimmedTwice(last);
      assert RightTrimmed(last) <= last;
      forall i | 0 <= i < |Trim(lines)|
        ensures HeaderOf(Trim(lines)[i]).Header? ==> HeaderOf(Trim(lines)[i]).section !in NAMES
      {
        if RightTrimmed(last) != "" && i < |prefix| {
          assert Trim(lines)[i] == lines[i];
        }
      }
    }
  }

  lemma TrimmedTwice(s: string)
    ensures RightTrimmed(RightTrimmed(s)) == RightTrimmed(s)
  {
  }

  // ----- splitting what was joined -----

  lemma {:induction false} FirstLineOf(line: string, rest: string)
    requires OneLine(line)
    ensures FirstLine(line + "\n" + rest) == |line|
  {
    var text := line + "\n" + rest;
    if line != "" {
      assert text[1..] == line[1..] + "\n" + rest;
      FirstLineOf(line[1..], rest);
    }
  }

  lemma SplitFirst(line: string, rest: string)
    requires OneLine(line)
    ensures SplitLines(line + "\n" + rest) == [line] + SplitLines(rest)
  {
    var text := line + "\n" + rest;
    FirstLineOf(line, rest);
    assert text[..|line|] == line && text[|line|..] == "\n" + rest;
    assert SkipBreak("\n" + rest) == rest;
  }

  lemma {:induction false} SplitJoined(lines: seq<string>, rest: string)
    requires AllOneLine(lines) && lines != []
    ensures SplitLines(Joined(lines) + "\n" + rest) == lines + SplitLines(rest)
    decreases |lines|
  {
    hide SplitLines, OneLine;
    var prefix, last := lines[..|lines| - 1], lines[|lines| - 1];
    SplitFirst(last, rest);
    if |lines| > 1 {
      SplitJoined(prefix, last + "\n" + rest);
      assert Joined(lines) + "\n" + rest == Joined(prefix) + "\n" + (last + "\n" + rest);
      assert lines == prefix + [last];
    } else {
      assert lines == [last];
    }
  }

  // ----- the block -----

  lemma EscapedIsPlain(c: char)
    ensures forall i | 0 <= i < |Escaped(c)| :: 0x20 <= Escaped(c)[i] as int <= 0x7E
  {
  }

  lemma {:induction false} QuotedIsOneLine(s: string)
    ensures OneLine(EscapedText(s)) && OneLine(TomlString(s))
  {
    if s != "" {
      hide Escaped;
      EscapedIsPlain(s[0]);
      QuotedIsOneLine(s[1..]);
    }
  }

  lemma PlainStart(line: string)
    requires line == "" || (!White(line[0]) && line[0] != '[')
    ensures HeaderOf(line) == NoHeader
  {
  }

  lemma SettingIsPlain(setting: Setting)
    requires BareKey(setting.key)
    ensures var line := setting.key + " = " + TomlString(setting.value); OneLine(line) && HeaderOf(line) == NoHeader
  {
    QuotedIsOneLine(setting.value);
    hide HeaderOf, TomlString;
    var line := setting.key + " = " + TomlString(setting.value);
    assert line[0] == setting.key[0];
    PlainStart(line);
  }

  lemma {:induction false} EnvIsPlain(env: seq<Setting>)
    requires forall i | 0 <= i < |env| :: BareKey(env[i].key)
    ensures AllOneLine(EnvLines(env)) && forall i | 0 <= i < |env| :: HeaderOf(EnvLines(env)[i]) == NoHeader
  {
    if env != [] {
      hide HeaderOf, TomlString, OneLine, BareKey;
      EnvIsPlain(env[1..]);
      SettingIsPlain(env[0]);
    }
  }

  lemma BracketedHeader(name: string)
    requires name != "" && !White(name[0]) && !White(name[|name| - 1]) && Bracket(name + "]") == |name|
    ensures HeaderOf("[" + name + "]") == Header(name)
  {
    hide LeftTrimmed, RightTrimmed, Bracket, HeaderOf;
    var line := "[" + name + "]";
    assert line[0] == '[' && line[1..] == name + "]";
    NoLeadingSpace(line);
    NoLeadingSpace(name);
    NoTrailingSpace(name);
    assert (name + "]")[..|name|] == name && (name + "]")[|name| + 1..] == "";
    HeaderSteps(line, line, |name|);
  }

  lemma NoLeadingSpace(s: string)
    requires s == "" || !White(s[0])
    ensures LeftTrimmed(s) == s
  {
  }

  lemma NoTrailingSpace(s: string)
    requires s == "" || !White(s[|s| - 1])
    ensures RightTrimmed(s) == s
  {
  }

  lemma HeaderSteps(line: string, body: string, n: nat)
    requires LeftTrimmed(line) == body && body != "" && body[0] == '['
    requires Bracket(body[1..]) == n && 0 < n < |body[1..]| && AllWhite(body[1..][n + 1..])
    ensures HeaderOf(line) == Header(RightTrimmed(LeftTrimmed(body[1..][..n])))
  {
    hide LeftTrimmed, RightTrimmed, Bracket, AllWhite;
  }

  lemma NamesAreHeaders()
    ensures HeaderOf("[" + SERVER + "]") == Header(SERVER)
    ensures HeaderOf("[" + SERVER_ENV + "]") == Header(SERVER_ENV)
  {
    ClosedName(SERVER);
    ClosedName(SERVER_ENV);
    BracketedHeader(SERVER);
    BracketedHeader(SERVER_ENV);
  }

  predicate NameChar(c: char) {
    'a' <= c <= 'z' || '0' <= c <= '9' || c == '_' || c == '.' || c == '-'
  }

  lemma {:induction false} ClosedName(name: string)
    requires forall i | 0 <= i < |name| :: NameChar(name[i])
    ensures Bracket(name + "]") == |name|
    ensures name != "" ==> !White(name[0]) && !White(name[|name| - 1])
  {
    if name != "" {
      assert (name + "]")[1..] == name[1..] + "]";
      ClosedName(name[1..]);
    } else {
      assert name + "]" == "]";
    }
  }

  /** One line that opens no section but the server's own. */
  predicate OwnLine(line: string) {
    OneLine(line) && (HeaderOf(line).Header? ==> HeaderOf(line).section in NAMES)
  }

  lemma PlainIsOwn(line: string)
    requires OneLine(line) && (line == "" || (!White(line[0]) && line[0] != '['))
    ensures OwnLine(line)
  {
    PlainStart(line);
  }

  lemma HeadersAreOwn()
    ensures OwnLine("[" + SERVER + "]") && OwnLine("[" + SERVER_ENV + "]")
    ensures HeaderOf("[" + SERVER + "]") == Header(SERVER)
  {
    NamesAreHeaders();
    hide HeaderOf;
  }

  lemma CommandIsOwn(command: string)
    ensures OwnLine("command = " + TomlString(command))
  {
    QuotedIsOneLine(command);
    hide TomlString, HeaderOf;
    PlainIsOwn("command = " + TomlString(command));
  }

  lemma ArgsAreOwn()
    ensures OwnLine("args = []") && OwnLine("")
  {
    PlainIsOwn("args = []");
    PlainIsOwn("");
    hide OwnLine;
  }

  lemma StartupIsOwn()
    ensures OwnLine("startup_timeout_sec = 15")
  {
    PlainIsOwn("startup_timeout_sec = 15");
    hide OwnLine;
  }

  lemma ToolIsOwn()
    ensures OwnLine("tool_timeout_sec = 30")
  {
    PlainIsOwn("tool_timeout_sec = 30");
    hide OwnLine;
  }

  lemma EnabledIsOwn(enabled: bool)
    ensures OwnLine("enabled = " + (if enabled then "true" else "false"))
  {
    PlainIsOwn("enabled = " + (if enabled then "true" else "false"));
    hide OwnLine;
  }

  lemma FixedAreOwn(command: string, enabled: bool)
    ensures forall i | 0 <= i < |FixedLines(command, enabled)| :: OwnLine(FixedLines(command, enabled)[i])
  {
    hide OwnLine, TomlString;
    HeadersAreOwn();
    CommandIsOwn(command);
    ArgsAreOwn();
    StartupIsOwn();
    ToolIsOwn();
    EnabledIsOwn(enabled);
  }

  lemma BlockIsOwn(server: Server, enabled: bool)
    requires ValidServer(server)
    ensures var b := BlockLines(server, enabled);
      && HeaderOf(b[0]) == Header(SERVER)
      && forall i | 0 <= i < |b| :: OwnLine(b[i])
  {
    var fixed, env := FixedLines(server.command, enabled), EnvLines(server.env);
    FixedAreOwn(server.command, enabled);
    HeadersAreOwn();
    EnvIsPlain(server.env);
    hide HeaderOf, OneLine;
    forall i | 0 <= i < |env|
      ensures OwnLine(env[i])
    {
      assert HeaderOf(env[i]) == NoHeader;
    }
    hide OwnLine, FixedLines;
    assert fixed[0] == "[" + SERVER + "]" by { FixedStart(server.command, enabled); }
    forall i | 0 <= i < |fixed + env|
      ensures OwnLine((fixed + env)[i])
    {
    }
  }

  lemma FixedStart(command: string, enabled: bool)
    ensures |FixedLines(command, enabled)| == 8 && FixedLines(command, enabled)[0] == "[" + SERVER + "]"
  {
  }

  // ----- sections of the merged text -----

  lemma {:induction false} ForeignIsOutside(lines: seq<string>, n: nat)
    requires n <= |lines| && Foreign(lines[..n])
    ensures Outside(lines, NAMES, n) == lines[..n]
    ensures n > 0 ==> !Removed(lines, n - 1, NAMES)
  {
    if n > 0 {
      hide HeaderOf;
      assert lines[..n][..n - 1] == lines[..n - 1];
      assert forall i | 0 <= i < n - 1 :: lines[..n - 1][i] == lines[..n][i];
      ForeignIsOutside(lines, n - 1);
      assert HeaderOf(lines[..n][n - 1]).Header? ==> HeaderOf(lines[..n][n - 1]).section !in NAMES;
      assert lines[..n] == lines[..n - 1] + [lines[n - 1]];
    }
  }

  lemma {:induction false} OwnIsRemoved(lines: seq<string>, m: nat, n: nat)
    requires m < n <= |lines| && HeaderOf(lines[m]).Header?
    requires forall i | m <= i < n && HeaderOf(lines[i]).Header? :: HeaderOf(lines[i]).section in NAMES
    ensures Removed(lines, n - 1, NAMES) && Outside(lines, NAMES, n) == Outside(lines, NAMES, m)
    decreases n
  {
    hide HeaderOf;
    if n > m + 1 {
      OwnIsRemoved(lines, m, n - 1);
    }
  }

  /** The kept lines open none of the server's sections. */
  lemma {:induction false} OutsideIsForeign(lines: seq<string>, n: nat)
    requires n <= |lines| && AllOneLine(lines)
    ensures Foreign(Outside(lines, NAMES, n)) && AllOneLine(Outside(lines, NAMES, n))
  {
    if n > 0 {
      hide HeaderOf, OneLine;
      OutsideIsForeign(lines, n - 1);
    }
  }

  /** The cleaned text is made of lines that open none of the server's sections, and ends in none
      that is blank. */
  lemma CleanedLines(text: string) returns (lines: seq<string>)
    ensures Foreign(lines) && AllOneLine(lines) && Cleaned(text) == Joined(lines)
    ensures lines == [] <==> Cleaned(text) == ""
    ensures RightTrimmed(Joined(lines)) == Joined(lines)
  {
    var all := SplitLines(text);
    var kept := Outside(all, NAMES, |all|);
    OutsideIsForeign(all, |all|);
    TrimKeeps(kept);
    TrimmedJoin(kept);
    lines := Trim(kept);
    TrimmedTwice(Joined(kept));
    hide Foreign, AllOneLine, Outside, SplitLines, Trim, RightTrimmed;
    LastMakesNonEmpty(lines);
  }

  lemma LastMakesNonEmpty(lines: seq<string>)
    requires lines != [] ==> lines[|lines| - 1] != ""
    ensures lines == [] <==> Joined(lines) == ""
  {
  }

  lemma AllOutside(lines: seq<string>, server: Server, enabled: bool)
    requires Foreign(lines) && ValidServer(server)
    ensures var all := lines + BlockLines(server, enabled); Outside(all, NAMES, |all|) == lines
  {
    var b := BlockLines(server, enabled);
    var all := lines + b;
    BlockIsOwn(server, enabled);
    FixedStart(server.command, enabled);
    hide HeaderOf, FixedLines;
    assert all[..|lines|] == lines;
    ForeignIsOutside(all, |lines|);
    forall i | |lines| <= i < |all| && HeaderOf(all[i]).Header?
      ensures HeaderOf(all[i]).section in NAMES
    {
      assert all[i] == b[i - |lines|] && OwnLine(b[i - |lines|]);
    }
    assert all[|lines|] == b[0];
    OwnIsRemoved(all, |lines|, |all|);
  }

  lemma BlockSplits(server: Server, enabled: bool)
    requires ValidServer(server)
    ensures SplitLines(Block(server, enabled)) == BlockLines(server, enabled)
  {
    var b := BlockLines(server, enabled);
    BlockIsOwn(server, enabled);
    OwnAreOneLine(b);
    EmptySplits();
    FixedStart(server.command, enabled);
    hide SplitLines, Joined, OneLine, OwnLine, FixedLines;
    SplitJoined(b, "");
    assert Joined(b) + "\n" + "" == Block(server, enabled);
  }

  lemma OwnAreOneLine(lines: seq<string>)
    requires forall i | 0 <= i < |lines| :: OwnLine(lines[i])
    ensures AllOneLine(lines)
  {
  }

  lemma MergedLines(text: string, server: Server, enabled: bool, lines: seq<string>)
    requires ValidServer(server) && AllOneLine(lines) && Cleaned(text) == Joined(lines)
    requires lines == [] <==> Cleaned(text) == ""
    ensures SplitLines(Merged(text, server, enabled)) ==
              (if lines == [] then [] else lines + [""]) + BlockLines(server, enabled)
  {
    BlockSplits(server, enabled);
    hide BlockLines, SplitLines, Cleaned, Joined, Block, FixedLines;
    if lines != [] {
      SplitTwo(lines, Block(server, enabled));
    } else {
      MergedIntoNothing(text, server, enabled);
    }
  }

  lemma MergedIntoNothing(text: string, server: Server, enabled: bool)
    requires Cleaned(text) == ""
    ensures Merged(text, server, enabled) == Block(server, enabled)
  {
    hide Cleaned, Block;
  }

  lemma SplitTwo(lines: seq<string>, block: string)
    requires AllOneLine(lines) && lines != []
    ensures SplitLines(Joined(lines) + "\n\n" + block) == lines + [""] + SplitLines(block)
  {
    hide SplitLines, Joined, OneLine;
    BlankLine(Joined(lines), block);
    SplitJoined(lines, "\n" + block);
    SplitFirst("", block);
    assert "" + "\n" + block == "\n" + block;
    assert lines + ([""] + SplitLines(block)) == lines + [""] + SplitLines(block);
  }

  lemma BlankLine(a: string, b: string)
    ensures a + "\n\n" + b == a + "\n" + ("\n" + b)
  {
    assert "\n\n" == "\n" + "\n";
    assert a + ("\n" + "\n") + b == a + "\n" + ("\n" + b);
  }

  lemma EmptySplits()
    ensures SplitLines("") == []
  {
  }

  /** Cleaning a merged text gives back the cleaned text it was merged from: what stands before the
      appended block is exactly what was outside the two sections. */
  lemma CleanedMerged(text: string, server: Server, enabled: bool)
    requires ValidServer(server)
    ensures Cleaned(Merged(text, server, enabled)) == Cleaned(text)
  {
    var lines := CleanedLines(text);
    MergedLines(text, server, enabled, lines);
    var kept := if lines == [] then [] else lines + [""];
    hide HeaderOf, SplitLines, Merged, RightTrimmed, BlockLines, Joined, Outside, Foreign;
    BlankIsForeign(lines);
    AllOutside(kept, server, enabled);
    BlankEnd(lines);
  }

  lemma BlankEnd(lines: seq<string>)
    requires RightTrimmed(Joined(lines)) == Joined(lines)
    ensures RightTrimmed(Joined(if lines == [] then [] else lines + [""])) == Joined(lines)
  {
    if lines != [] {
      var kept := lines + [""];
      assert kept[..|lines|] == lines;
      assert Joined(kept) == Joined(lines) + "\n" + "";
      assert Joined(kept) == Joined(lines) + "\n";
      TrimmedConcat(Joined(lines), "\n");
    }
  }

  lemma BlankIsForeign(lines: seq<string>)
    requires Foreign(lines)
    ensures Foreign(lines + [""])
  {
    PlainStart("");
    hide HeaderOf;
  }

  /** Merging is absorbing: only the last merged server counts; in particular it is idempotent. */
  lemma MergeAbsorbs(text: string, first: Server, enabledFirst: bool, last: Server, enabledLast: bool)
    requires ValidServer(first)
    ensures Merged(Merged(text, first, enabledFirst), last, enabledLast) == Merged(text, last, enabledLast)
  {
    CleanedMerged(text, first, enabledFirst);
    hide Cleaned, Block;
  }
}