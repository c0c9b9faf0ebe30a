/** What a reader finds in a merged TOML text: the server's own settings, and everybody else's. */
module TomlReading {
  import opened TomlMerge

  // ----- quoted strings -----

  datatype Reading = Refused | Read(value: string)

  function Before(c: char, rest: Reading): Reading {
    if rest.Read? then Read([c] + rest.value) else Refused
  }

  datatype Digit = NoDigit | Digit(value: nat)

  function DigitOf(c: char): (digit: Digit)
    ensures digit.Digit? ==> digit.value < 16
  {
    if '0' <= c <= '9' then Digit(c as int - '0' as int)
    else if 'a' <= c <= 'f' then Digit(c as int - 'a' as int + 10)
    else if 'A' <= c <= 'F' then Digit(c as int - 'A' as int + 10)
    else NoDigit
  }

  /** A number written with hexadecimal digits. */
  function NumberOf(s: string): Digit {
    if s == "" then Digit(0)
    else
      var front, last := NumberOf(s[..|s| - 1]), DigitOf(s[|s| - 1]);
      if front.Digit? && last.Digit? then Digit(16 * front.value + last.value) else NoDigit
  }

  /** Escapes must stand for characters: halves of surrogate pairs are refused. */
  predicate ScalarValue(n: nat) {
    n < 0xD800 || 0xE000 <= n < 0x11_0000
  }

  function AfterNumber(number: Digit, rest: Reading): Reading {
    if number.Digit? && ScalarValue(number.value) then Before(number.value as char, rest) else Refused
  }

  function ShortEscape(c: char): (meant: Reading)
    ensures meant.Read? ==> |meant.value| == 1
  {
    if c == '\"' || c == '\\' then Read([c])
    else if c == 'b' then Read([8 as char])
    else if c == 't' then Read("\t")
    else if c == 'n' then Read("\n")
    else if c == 'f' then Read([12 as char])
    else if c == 'r' then Read("\r")
    else Refused
  }

  /** The rest of a basic string of TOML 1.0 behind its opening quote; the closing quote ends the value. */
  function StringRest(s: string): Reading {
    if s == "" then Refused
    else if s[0] == '\"' then if |s| == 1 then Read("") else Refused
    else if s[0] == '\\' then EscapeRest(s[1..])
    else if (s[0] as int < 0x20 && s[0] != '\t') || s[0] as int == 0x7F then Refused
    else Before(s[0], StringRest(s[1..]))
  }

  function EscapeRest(s: string): Reading {
    if s == "" then Refused
    else if s[0] == 'u' then
      if |s| < 5 then Refused else AfterNumber(NumberOf(s[1..5]), StringRest(s[5..]))
    else if s[0] == 'U' then
      if |s| < 9 then Refused else AfterNumber(NumberOf(s[1..9]), StringRest(s[9..]))
    else if ShortEscape(s[0]).Read? then Before(ShortEscape(s[0]).value[0], StringRest(s[1..]))
    else Refused
  }

  function StringValue(s: string): Reading {
    if s != "" && s[0] == '\"' then StringRest(s[1..]) else Refused
  }

  /** The characters that need no surrogate pair. */
  predicate Narrow(s: string) {
    forall i | 0 <= i < |s| :: s[i] as int < 0x1_0000
  }

  lemma DigitBack(d: nat)
    requires d < 16
    ensures DigitOf(HexDigit(d)) == Digit(d)
  {
  }

  lemma FourDigits(a: char, b: char, c: char, d: char)
    requires DigitOf(a).Digit? && DigitOf(b).Digit? && DigitOf(c).Digit? && DigitOf(d).Digit?
    ensures NumberOf([a, b, c, d]) ==
              Digit(0x1000 * DigitOf(a).value + 0x100 * DigitOf(b).value + 0x10 * DigitOf(c).value + DigitOf(d).value)
  {
    hide DigitOf;
    assert NumberOf([]) == Digit(0);
    assert [a][..0] == [] && [a, b][..1] == [a] && [a, b, c][..2] == [a, b] && [a, b, c, d][..3] == [a, b, c];
    assert NumberOf([a]) == DigitOf(a);
    assert NumberOf([a, b]) == Digit(0x10 * DigitOf(a).value + DigitOf(b).value);
  }

  lemma FourParts(n: nat)
    requires n < 0x1_0000
    ensures n == 0x1000 * (n / 0x1000) + 0x100 * (n / 0x100 % 0x10) + 0x10 * (n / 0x10 % 0x10) + n % 0x10
  {
    var a := n / 0x10;
    var b := a / 0x10;
    assert b == n / 0x100 && b / 0x10 == n / 0x1000;
    assert a == 0x10 * b + a % 0x10 && b == 0x10 * (b / 0x10) + b % 0x10;
  }

  lemma NumberBack(n: nat)
    requires n < 0x1_0000
    ensures Unit(n)[0] == '\\' && Unit(n)[1] == 'u' && |Unit(n)| == 6 && NumberOf(Unit(n)[2..]) == Digit(n)
  {
    var a, b, c, d := n / 0x1000, n / 0x100 % 0x10, n / 0x10 % 0x10, n % 0x10;
    DigitBack(a);
    DigitBack(b);
    DigitBack(c);
    DigitBack(d);
    hide DigitOf, HexDigit, NumberOf;
    FourParts(n);
    FourDigits(HexDigit(a), HexDigit(b), HexDigit(c), HexDigit(d));
    assert Unit(n)[2..] == [HexDigit(a), HexDigit(b), HexDigit(c), HexDigit(d)];
  }

  lemma UnitRest(n: nat, rest: string)
    requires n < 0x1_0000
    ensures StringRest(Unit(n) + rest) == AfterNumber(Digit(n), StringRest(rest))
  {
    var s := Unit(n) + rest;
    NumberBack(n);
    hide NumberOf, Unit, AfterNumber, ShortEscape;
    assert s[0] == '\\' && s[1..][0] == 'u' && s[1..][1..5] == Unit(n)[2..] && s[1..][5..] == rest;
  }

  lemma ShortRest(c: char, rest: string)
    requires ShortEscape(c).Read?
    ensures StringRest("\\" + [c] + rest) == Before(ShortEscape(c).value[0], StringRest(rest))
  {
    var s := "\\" + [c] + rest;
    assert s[1..] == [c] + rest && s[1..][1..] == rest;
  }

  /** One character is read back, unless it was written as a surrogate pair: then the string is refused. */
  lemma CharRest(c: char, rest: string)
    ensures StringRest(Escaped(c) + rest) == if c as int < 0x1_0000 then Before(c, StringRest(rest)) else Refused
  {
    var n := c as int;
    hide StringRest, EscapeRest, Unit;
    if n >= 0x1_0000 {
      var high, low := 0xD800 + (n - 0x1_0000) / 0x400, 0xDC00 + (n - 0x1_0000) % 0x400;
      UnitRest(high, Unit(low) + rest);
      assert Escaped(c) + rest == Unit(high) + (Unit(low) + rest);
    } else if 0x20 <= n <= 0x7E && c != '\"' && c != '\\' {
      PlainRest(c, rest);
    } else if c in "\"\\\n\r\t" || n == 8 || n == 12 {
      ShortRest(Escaped(c)[1], rest);
      assert Escaped(c) == "\\" + [Escaped(c)[1]];
    } else {
      UnitRest(n, rest);
    }
  }

  lemma PlainRest(c: char, rest: string)
    requires 0x20 <= c as int <= 0x7E && c != '\"' && c != '\\'
    ensures StringRest([c] + rest) == Before(c, StringRest(rest))
  {
    assert ([c] + rest)[1..] == rest;
  }

  lemma {:induction false} RestBack(s: string)
    ensures StringRest(EscapedText(s) + "\"") == if Narrow(s) then Read(s) else Refused
  {
    if s == "" {
      assert EscapedText(s) + "\"" == "\"";
    } else {
      var rest := EscapedText(s[1..]) + "\"";
      assert EscapedText(s) + "\"" == Escaped(s[0]) + rest;
      hide StringRest, Escaped;
      CharRest(s[0], rest);
      RestBack(s[1..]);
      assert s == [s[0]] + s[1..];
      assert Narrow(s) <==> s[0] as int < 0x1_0000 && Narrow(s[1..]);
    }
  }

  /** A written string is read back as it was, or refused: exactly when a character needs a surrogate
      pair, which TOML does not allow. */
  lemma StringBack(s: string)
    ensures StringValue(TomlString(s)) == if Narrow(s) then Read(s) else Refused
  {
    RestBack(s);
    hide StringRest, EscapedText;
    assert TomlString(s)[1..] == EscapedText(s) + "\"";
  }

  // ----- settings of a section -----

  function EqualsIn(s: string): (n: nat)
    ensures n <= |s| && (n < |s| ==> s[n] == '=') && forall i | 0 <= i < n :: s[i] != '='
  {
    if s == "" || s[0] == '=' then 0 else 1 + EqualsIn(s[1..])
  }

  function Stripped(s: string): string {
    RightTrimmed(LeftTrimmed(s))
  }

  /** The key and the raw value of a line that holds an equals sign. */
  function SettingOf(line: string): seq<Setting> {
    var n := EqualsIn(line);
    if n == |line| then [] else [Setting(Stripped(line[..n]), Stripped(line[n + 1..]))]
  }

  /** The settings among the first lines that stand in a section. */
  function SettingsIn(lines: seq<string>, section: Header, n: nat): seq<Setting>
    requires n <= |lines|
  {
    if n == 0 then []
    else SettingsIn(lines, section, n - 1)
         + if SectionAt(lines, n - 1) == section then SettingOf(lines[n - 1]) else []
  }

  function Settings(text: string, section: Header): seq<Setting> {
    var lines := SplitLines(text);
    SettingsIn(lines, section, |lines|)
  }

  lemma {:induction false} EqualsConcat(key: string, rest: string)
    requires forall i | 0 <= i < |key| :: key[i] != '='
    ensures EqualsIn(key + "=" + rest) == |key|
  {
    var line := key + "=" + rest;
    if key != "" {
      assert line[1..] == key[1..] + "=" + rest;
      EqualsConcat(key[1..], rest);
    }
  }

  lemma SettingLine(key: string, value: string)
    requires key != "" && (forall i | 0 <= i < |key| :: key[i] != '=') && !White(key[0]) && !White(key[|key| - 1])
    requires value != "" && !White(value[0]) && !White(value[|value| - 1])
    ensures SettingOf(key + " = " + value) == [Setting(key, value)]
  {
    hide White, LeftTrimmed, RightTrimmed, EqualsIn;
    var line := key + " = " + value;
    assert line == (key + " ") + "=" + (" " + value);
    EqualsConcat(key + " ", " " + value);
    assert line[..|key + " "|] == key + " " && line[|key + " "| + 1..] == " " + value;
    StrippedRight(key);
    StrippedLeft(value);
  }

  lemma StrippedRight(s: string)
    requires s != "" && !White(s[0]) && !White(s[|s| - 1])
    ensures Stripped(s + " ") == s
  {
    TrimmedConcat(s, " ");
    NoTrailingSpace(s);
    hide RightTrimmed;
    NoLeadingSpace(s + " ");
  }

  lemma StrippedLeft(s: string)
    requires s != "" && !White(s[0]) && !White(s[|s| - 1])
    ensures Stripped(" " + s) == s
  {
    assert (" " + s)[1..] == s;
    NoLeadingSpace(s);
    NoTrailingSpace(s);
    hide RightTrimmed;
  }

  lemma {:induction false} SamePrefix(a: seq<string>, b: seq<string>, section: Header, n: nat)
    requires n <= |a| && n <= |b| && a[..n] == b[..n]
    ensures SettingsIn(a, section, n) == SettingsIn(b, section, n)
    ensures n > 0 ==> SectionAt(a, n - 1) == SectionAt(b, n - 1)
  {
    if n > 0 {
      hide HeaderOf, SettingOf;
      assert a[..n - 1] == a[..n][..n - 1] && b[..n - 1] == b[..n][..n - 1];
      assert a[n - 1] == a[..n][n - 1] && b[n - 1] == b[..n][n - 1];
      SamePrefix(a, b, section, n - 1);
    }
  }

  lemma LastSetting(lines: seq<string>, section: Header, n: nat)
    requires 0 < n <= |lines|
    ensures SettingsIn(lines, section, n) == SettingsIn(lines, section, n - 1)
              + if SectionAt(lines, n - 1) == section then SettingOf(lines[n - 1]) else []
  {
  }

  lemma FirstSettings(lines: seq<string>, section: Header)
    ensures SettingsIn(lines, section, 0) == []
  {
  }

  /** Behind a header, what stands before it does not matter. */
  lemma {:induction false} BehindHeader(a: seq<string>, b: seq<string>, section: Header, n: nat)
    requires n <= |b| && (b != [] ==> HeaderOf(b[0]).Header?)
    ensures SettingsIn(a + b, section, |a| + n) == SettingsIn(a, section, |a|) + SettingsIn(b, section, n)
    ensures n > 0 ==> SectionAt(a + b, |a| + n - 1) == SectionAt(b, n - 1)
  {
    hide HeaderOf, SettingOf, SettingsIn;
    if n == 0 {
      assert (a + b)[..|a|] == a[..|a|];
      SamePrefix(a + b, a, section, |a|);
      FirstSettings(b, section);
    } else {
      BehindHeader(a, b, section, n - 1);
      assert (a + b)[|a| + n - 1] == b[n - 1];
      LastSetting(a + b, section, |a| + n);
      LastSetting(b, section, n);
    }
  }

  // ----- the server's settings -----

  /** What the server's own section must say. */
  function ServerSettings(server: Server, enabled: bool): seq<Setting> {
    [Setting("command", TomlString(server.command)), Setting("args", "[]"), Setting("startup_timeout_sec", "15"),
     Setting("tool_timeout_sec", "30"), Setting("enabled", if enabled then "true" else "false")]
  }

  function EnvSettings(env: seq<Setting>): (settings: seq<Setting>)
    ensures |settings| == |env|
    ensures forall i | 0 <= i < |env| :: settings[i] == Setting(env[i].key, TomlString(env[i].value))
  {
    seq(|env|, i requires 0 <= i < |env| => Setting(env[i].key, TomlString(env[i].value)))
  }

  lemma QuotedEnds(s: string)
    ensures var q := TomlString(s); q != "" && !White(q[0]) && !White(q[|q| - 1])
  {
    hide EscapedText;
    assert TomlString(s)[0] == '\"' && TomlString(s)[|TomlString(s)| - 1] == '\"';
  }

  lemma EnvLine(setting: Setting)
    requires BareKey(setting.key)
    ensures SettingOf(setting.key + " = " + TomlString(setting.value)) ==
              [Setting(setting.key, TomlString(setting.value))]
  {
    QuotedEnds(setting.value);
    hide TomlString, SettingOf;
    SettingLine(setting.key, TomlString(setting.value));
  }

  lemma CommandLine(command: string)
    ensures SettingOf("command = " + TomlString(command)) == [Setting("command", TomlString(command))]
  {
    QuotedEnds(command);
    hide TomlString, SettingOf;
    SettingLine("command", TomlString(command));
    assert "command" + " = " == "command = ";
  }

  lemma OtherLines(enabled: bool)
    ensures SettingOf("args = []") == [Setting("args", "[]")]
    ensures SettingOf("startup_timeout_sec = 15") == [Setting("startup_timeout_sec", "15")]
    ensures SettingOf("tool_timeout_sec = 30") == [Setting("tool_timeout_sec", "30")]
    ensures var word := if enabled then "true" else "false";
      SettingOf("enabled = " + word) == [Setting("enabled", word)]
  {
    hide SettingOf;
    SettingLine("args", "[]");
    SettingLine("startup_timeout_sec", "15");
    SettingLine("tool_timeout_sec", "30");
    SettingLine("enabled", if enabled then "true" else "false");
    assert "args" + " = " + "[]" == "args = []";
    assert "startup_timeout_sec" + " = " + "15" == "startup_timeout_sec = 15";
    assert "tool_timeout_sec" + " = " + "30" == "tool_timeout_sec = 30";
    assert "enabled" + " = " == "enabled = ";
  }

  /** The settings of the first lines, whatever their section. */
  function AllSettings(lines: seq<string>, n: nat): seq<Setting>
    requires n <= |lines|
  {
    if n == 0 then [] else AllSettings(lines, n - 1) + SettingOf(lines[n - 1])
  }

  lemma {:induction false} OneSection(lines: seq<string>, section: Header, n: nat)
    requires 0 < n <= |lines| && HeaderOf(lines[0]).Header?
    requires forall i | 0 < i < n :: HeaderOf(lines[i]).NoHeader?
    ensures SectionAt(lines, n - 1) == HeaderOf(lines[0])
    ensures SettingsIn(lines, section, n) == if section == HeaderOf(lines[0]) then AllSettings(lines, n) else []
  {
    hide HeaderOf, SettingOf;
    if n > 1 {
      OneSection(lines, section, n - 1);
    } else {
      assert SettingsIn(lines, section, 0) == [] && AllSettings(lines, 0) == [];
    }
  }

  lemma {:induction false} NoEquals(s: string)
    requires forall i | 0 <= i < |s| :: s[i] != '='
    ensures SettingOf(s) == []
  {
  }

  function ServerPart(command: string, enabled: bool): seq<string> {
    FixedLines(command, enabled)[..7]
  }

  function EnvPart(env: seq<Setting>): seq<string> {
    ["[" + SERVER_ENV + "]"] + EnvLines(env)
  }

  lemma BlockParts(server: Server, enabled: bool)
    ensures BlockLines(server, enabled) == ServerPart(server.command, enabled) + EnvPart(server.env)
  {
    hide TomlString;
    var fixed := FixedLines(server.command, enabled);
    assert fixed == fixed[..7] + ["[" + SERVER_ENV + "]"];
  }

  lemma NameSaysNothing(name: string)
    requires forall i | 0 <= i < |name| :: NameChar(name[i])
    ensures SettingOf("[" + name + "]") == []
  {
    hide SettingOf;
    NoEquals("[" + name + "]");
  }

  lemma ServerNameChars()
    ensures forall i | 0 <= i < |SERVER| :: NameChar(SERVER[i])
  {
  }

  lemma EnvNameChars()
    ensures forall i | 0 <= i < |SERVER_ENV| :: NameChar(SERVER_ENV[i])
  {
  }

  lemma HeadersSayNothing()
    ensures SettingOf("[" + SERVER + "]") == [] && SettingOf("[" + SERVER_ENV + "]") == [] && SettingOf("") == []
  {
    hide SettingOf, NameChar, SERVER, SERVER_ENV;
    ServerNameChars();
    EnvNameChars();
    NameSaysNothing(SERVER);
    NameSaysNothing(SERVER_ENV);
    NoEquals("");
  }

  lemma ServerPartSays(command: string, enabled: bool)
    ensures AllSettings(ServerPart(command, enabled), 7) == ServerSettings(Server(command, []), enabled)
  {
    HeadersSayNothing();
    CommandLine(command);
    OtherLines(enabled);
    hide SettingOf, TomlString;
    var b := ServerPart(command, enabled);
    assert AllSettings(b, 0) == [] && AllSettings(b, 1) == [];
    assert b[1] == "command = " + TomlString(command);
    assert AllSettings(b, 2) == [Setting("command", TomlString(command))];
    assert AllSettings(b, 4) == AllSettings(b, 2) + [Setting("args", "[]"), Setting("startup_timeout_sec", "15")];
    assert AllSettings(b, 6) == ServerSettings(Server(command, []), enabled);
  }

  lemma ServerPartIsPlain(command: string, enabled: bool)
    ensures var b := ServerPart(command, enabled);
      |b| == 7 && HeaderOf(b[0]) == Header(SERVER) && forall i | 0 < i < 7 :: HeaderOf(b[i]).NoHeader?
  {
    hide HeaderOf, TomlString, LineBreak;
    NamesAreHeaders();
    var b := ServerPart(command, enabled);
    forall i | 0 < i < 7
      ensures HeaderOf(b[i]).NoHeader?
    {
      assert b[i] == "" || 'a' <= b[i][0] <= 'z';
      AsciiStart(b[i]);
    }
  }

  lemma AsciiStart(line: string)
    requires line == "" || 'a' <= line[0] <= 'z'
    ensures HeaderOf(line).NoHeader?
  {
    PlainStart(line);
  }

  lemma {:induction false} EnvLineAt(env: seq<Setting>, i: nat)
    requires i < |env|
    ensures EnvLines(env)[i] == env[i].key + " = " + TomlString(env[i].value)
  {
    hide TomlString;
    if i > 0 {
      EnvLineAt(env[1..], i - 1);
    }
  }

  lemma {:induction false} EnvPartSays(env: seq<Setting>, n: nat)
    requires n <= |env| && forall i | 0 <= i < |env| :: BareKey(env[i].key)
    ensures AllSettings(EnvPart(env), n + 1) == EnvSettings(env)[..n]
  {
    hide SettingOf, TomlString, BareKey;
    if n == 0 {
      HeadersSayNothing();
      assert AllSettings(EnvPart(env), 0) == [];
    } else {
      EnvPartSays(env, n - 1);
      EnvLineAt(env, n - 1);
      EnvLine(env[n - 1]);
      assert EnvSettings(env)[..n] == EnvSettings(env)[..n - 1] + [EnvSettings(env)[n - 1]];
    }
  }

  lemma BlockSays(server: Server, enabled: bool, section: Header)
    requires ValidServer(server)
    ensures var b := BlockLines(server, enabled);
      SettingsIn(b, section, |b|) ==
        if section == Header(SERVER) then ServerSettings(server, enabled)
        else if section == Header(SERVER_ENV) then EnvSettings(server.env)
        else []
  {
    hide SERVER, SERVER_ENV, SectionAt, SettingsIn, AllSettings;
    var first, second := ServerPart(server.command, enabled), EnvPart(server.env);
    BlockParts(server, enabled);
    ServerPartIsPlain(server.command, enabled);
    ServerPartSays(server.command, enabled);
    NamesAreHeaders();
    EnvIsPlain(server.env);
    EnvPartSays(server.env, |server.env|);
    assert EnvSettings(server.env)[..|server.env|] == EnvSettings(server.env);
    NamesDiffer();
    hide HeaderOf, SettingOf, BareKey, BlockLines, ServerPart, ServerSettings, TomlString;
    OneSection(first, section, 7);
    assert forall i | 0 < i < |second| :: second[i] == EnvLines(server.env)[i - 1];
    OneSection(second, section, |second|);
    BehindHeader(first, second, section, |second|);
    SameServerSettings(server, enabled);
  }

  lemma SameServerSettings(server: Server, enabled: bool)
    ensures ServerSettings(Server(server.command, []), enabled) == ServerSettings(server, enabled)
  {
  }

  lemma NamesDiffer()
    ensures SERVER != SERVER_ENV && NAMES == {SERVER, SERVER_ENV}
  {
    assert |SERVER| != |SERVER_ENV|;
  }

  // ----- settings of the other sections -----

  /** A kept line stands in the section in which it stood. */
  lemma {:induction false} KeptSection(lines: seq<string>, n: nat)
    requires 0 < n <= |lines| && !Removed(lines, n - 1, NAMES)
    ensures var kept := Outside(lines, NAMES, n);
      kept != [] && SectionAt(kept, |kept| - 1) == SectionAt(lines, n - 1)
  {
    hide HeaderOf;
    var front, kept := Outside(lines, NAMES, n - 1), Outside(lines, NAMES, n);
    assert kept == front + [lines[n - 1]];
    if n > 1 && HeaderOf(lines[n - 1]).NoHeader? {
      assert SectionAt(lines, n - 1) == SectionAt(lines, n - 2);
      KeptSection(lines, n - 1);
      LastSection(front, lines[n - 1]);
    }
  }

  lemma LastSection(lines: seq<string>, line: string)
    requires lines != [] && HeaderOf(line).NoHeader?
    ensures SectionAt(lines + [line], |lines|) == SectionAt(lines, |lines| - 1)
  {
    hide HeaderOf;
    assert (lines + [line])[..|lines|] == lines[..|lines|];
    SamePrefix(lines + [line], lines, NoHeader, |lines|);
  }

  /** Removing the server's sections loses no setting of another one. */
  lemma {:induction false} KeptSettings(lines: seq<string>, section: Header, n: nat)
    requires n <= |lines| && !(section.Header? && section.section in NAMES)
    ensures var kept := Outside(lines, NAMES, n); SettingsIn(kept, section, |kept|) == SettingsIn(lines, section, n)
  {
    hide HeaderOf, SettingOf, SectionAt;
    if n > 0 {
      KeptSettings(lines, section, n - 1);
      if !Removed(lines, n - 1, NAMES) {
        KeptSection(lines, n);
        var front, kept := Outside(lines, NAMES, n - 1), Outside(lines, NAMES, n);
        assert kept == front + [lines[n - 1]] && kept[..|front|] == front[..|front|];
        SamePrefix(kept, front, section, |front|);
        LastSetting(kept, section, |kept|);
      } else {
        assert Outside(lines, NAMES, n) == Outside(lines, NAMES, n - 1);
      }
      LastSetting(lines, section, n);
    }
  }

  lemma SettingTrims(line: string)
    ensures SettingOf(RightTrimmed(line)) == SettingOf(line)
  {
    var t := RightTrimmed(line);
    var w := line[|t|..];
    assert line == t + w;
    RestIsWhite(line);
    hide RightTrimmed, EqualsIn, AllWhite, Stripped;
    WhiteBehind(t, w);
  }

  lemma WhiteBehind(t: string, w: string)
    requires AllWhite(w)
    ensures SettingOf(t + w) == SettingOf(t)
  {
    hide EqualsIn, AllWhite, Stripped;
    var n := EqualsIn(t);
    NoEqualsInWhite(t, w);
    if n < |t| {
      assert (t + w)[..n] == t[..n] && (t + w)[n + 1..] == t[n + 1..] + w;
      StrippedWhite(t[n + 1..], w);
    }
  }

  lemma {:induction false} NoEqualsInWhite(t: string, w: string)
    requires AllWhite(w)
    ensures EqualsIn(t + w) == if EqualsIn(t) < |t| then EqualsIn(t) else |t + w|
    decreases |t|, |w|
  {
    if t != "" {
      assert (t + w)[1..] == t[1..] + w;
      NoEqualsInWhite(t[1..], w);
    } else if w != "" {
      assert t + w == w && "" + w[1..] == w[1..];
      NoEqualsInWhite("", w[1..]);
    }
  }

  lemma {:induction false} StrippedWhite(s: string, w: string)
    requires AllWhite(w)
    ensures Stripped(s + w) == Stripped(s)
    decreases |s|
  {
    hide RightTrimmed;
    if s == "" {
      assert s + w == w;
      AllWhiteTrims(w);
    } else if White(s[0]) {
      assert (s + w)[1..] == s[1..] + w;
      StrippedWhite(s[1..], w);
    } else {
      assert LeftTrimmed(s + w) == s + w;
      TrimmedConcat(s, w);
    }
  }

  /** Dropping white space at the end of the text loses no setting. */
  lemma {:induction false} TrimSettings(lines: seq<string>, section: Header)
    ensures SettingsIn(Trim(lines), section, |Trim(lines)|) == SettingsIn(lines, section, |lines|)
    decreases |lines|
  {
    hide HeaderOf, SettingOf, RightTrimmed, SettingsIn;
    if lines != [] {
      var prefix, last := lines[..|lines| - 1], lines[|lines| - 1];
      SettingTrims(last);
      assert lines[..|prefix|] == prefix[..|prefix|];
      SamePrefix(lines, prefix, section, |prefix|);
      LastSetting(lines, section, |lines|);
      if RightTrimmed(last) == "" {
        NoEquals("");
        TrimSettings(prefix, section);
      } else {
        var trimmed := prefix + [RightTrimmed(last)];
        HeaderTrims(last);
        assert trimmed[..|prefix|] == prefix[..|prefix|];
        SamePrefix(trimmed, prefix, section, |prefix|);
        LastSetting(trimmed, section, |trimmed|);
        assert SectionAt(trimmed, |prefix|) == SectionAt(lines, |prefix|);
      }
    }
  }

  // ----- the merged text -----

  /** The merged text says exactly what it should of the server, once, and what the old text said of
      every other section. */
  lemma MergedSettings(text: string, server: Server, enabled: bool, section: Header)
    requires ValidServer(server)
    ensures Settings(Merged(text, server, enabled), section) ==
              if section == Header(SERVER) then ServerSettings(server, enabled)
              else if section == Header(SERVER_ENV) then EnvSettings(server.env)
              else Settings(text, section)
  {
    hide Settings, Merged, ServerSettings, EnvSettings, BareKey, BlockLines, SERVER, SERVER_ENV, NAMES;
    var cleaned := CleanedOf(text);
    CleanedAre(text);
    MergedSays(text, server, enabled, section);
    BlockSays(server, enabled, section);
    NamesDiffer();
    hide CleanedOf, Foreign, SettingsIn;
    if section.Header? && section.section in NAMES {
      ForeignSays(cleaned, section, |cleaned|);
    } else {
      CleanedSays(text, section);
    }
  }

  /** The lines of the cleaned text. */
  function CleanedOf(text: string): seq<string> {
    var all := SplitLines(text);
    Trim(Outside(all, NAMES, |all|))
  }

  lemma CleanedSays(text: string, section: Header)
    requires !(section.Header? && section.section in NAMES)
    ensures SettingsIn(CleanedOf(text), section, |CleanedOf(text)|) == Settings(text, section)
  {
    var all := SplitLines(text);
    hide Outside, Trim, SettingsIn, SplitLines;
    KeptSettings(all, section, |all|);
    TrimSettings(Outside(all, NAMES, |all|), section);
  }

  lemma MergedSays(text: string, server: Server, enabled: bool, section: Header)
    requires ValidServer(server)
    ensures var b := BlockLines(server, enabled);
      Settings(Merged(text, server, enabled), section) ==
        SettingsIn(CleanedOf(text), section, |CleanedOf(text)|) + SettingsIn(b, section, |b|)
  {
    hide HeaderOf, SettingOf, SectionAt, Merged, Cleaned, SplitLines, OwnLine, BareKey, Joined;
    var cleaned := CleanedOf(text);
    CleanedAre(text);
    MergedLines(text, server, enabled, cleaned);
    BlockIsOwn(server, enabled);
    FixedStart(server.command, enabled);
    hide CleanedOf, FixedLines, SettingsIn, Foreign, AllOneLine;
    var b := BlockLines(server, enabled);
    if cleaned == [] {
      assert [] + b == b;
      BehindHeader([], b, section, |b|);
      NoSettings(section);
    } else {
      BehindHeader(cleaned + [""], b, section, |b|);
      BlankSettings(cleaned, section);
    }
  }

  lemma NoSettings(section: Header)
    ensures SettingsIn([], section, 0) == []
  {
  }

  lemma CleanedAre(text: string)
    ensures var cleaned := CleanedOf(text);
      && Foreign(cleaned) && AllOneLine(cleaned) && Cleaned(text) == Joined(cleaned)
      && (cleaned == [] <==> Cleaned(text) == "")
  {
    var all := SplitLines(text);
    var kept := Outside(all, NAMES, |all|);
    OutsideIsForeign(all, |all|);
    TrimKeeps(kept);
    TrimmedJoin(kept);
    hide Foreign, AllOneLine, Outside, SplitLines, Trim, RightTrimmed;
    LastMakesNonEmpty(Trim(kept));
  }

  lemma BlankSettings(lines: seq<string>, section: Header)
    requires lines != []
    ensures SettingsIn(lines + [""], section, |lines| + 1) == SettingsIn(lines, section, |lines|)
  {
    NoEquals("");
    hide HeaderOf, SettingOf, SectionAt;
    assert (lines + [""])[..|lines|] == lines[..|lines|];
    SamePrefix(lines + [""], lines, section, |lines|);
  }

  lemma {:induction false} ForeignSays(lines: seq<string>, section: Header, n: nat)
    requires n <= |lines| && Foreign(lines) && section.Header? && section.section in NAMES
    ensures SettingsIn(lines, section, n) == []
    ensures n > 0 ==> SectionAt(lines, n - 1) != section
  {
    hide HeaderOf, SettingOf;
    if n > 0 {
      ForeignSays(lines, section, n - 1);
    }
  }

  /** The server as a reader of the merged text finds it: the enabled flag, the command, and under each
      position of the environment its key and value. A text with a character that needs a surrogate
      pair is refused by the reader. */
  lemma ServerReadBack(text: string, server: Server, enabled: bool)
    requires ValidServer(server)
    ensures var merged := Merged(text, server, enabled);
      var own, env := Settings(merged, Header(SERVER)), Settings(merged, Header(SERVER_ENV));
      && |own| == 5 && own[0].key == "command"
      && StringValue(own[0].value) == (if Narrow(server.command) then Read(server.command) else Refused)
      && own[4] == Setting("enabled", if enabled then "true" else "false")
      && |env| == |server.env|
      && forall i | 0 <= i < |env| ::
           && env[i].key == server.env[i].key
           && StringValue(env[i].value) == if Narrow(server.env[i].value) then Read(server.env[i].value) else Refused
  {
    hide Merged, Settings, StringValue, TomlString, Narrow, BareKey;
    MergedSettings(text, server, enabled, Header(SERVER));
    MergedSettings(text, server, enabled, Header(SERVER_ENV));
    NamesDiffer();
    StringBack(server.command);
    forall i | 0 <= i < |server.env|
      ensures StringValue(TomlString(server.env[i].value)) ==
                if Narrow(server.env[i].value) then Read(server.env[i].value) else Refused
    {
      StringBack(server.env[i].value);
    }
  }

  // ----- tables that the program does not see -----

  /** What TOML itself takes for the start of a table: an array of tables and a header with a comment too. */
  predicate OpensTable(line: string) {
    LeftTrimmed(line) != "" && LeftTrimmed(line)[0] == '['
  }

  /** The line belongs to a table that is not the server's own. */
  predicate InOtherTable(lines: seq<string>, i: nat)
    requires i < |lines|
  {
    if OpensTable(lines[i]) then !(HeaderOf(lines[i]).Header? && HeaderOf(lines[i]).section in NAMES)
    else i > 0 && InOtherTable(lines, i - 1)
  }

  /** Nothing of another table is lost exactly when no table start that the program does not see stands
      in one of the server's sections. */
  lemma OthersKeptIff(lines: seq<string>)
    ensures (forall i | 0 <= i < |lines| && InOtherTable(lines, i) :: !Removed(lines, i, NAMES))
            <==> forall i | 0 <= i < |lines| && OpensTable(lines[i]) && HeaderOf(lines[i]).NoHeader? ::
                   !Removed(lines, i, NAMES)
  {
    hide HeaderOf, OpensTable, SectionAt;
    if forall i | 0 <= i < |lines| && OpensTable(lines[i]) && HeaderOf(lines[i]).NoHeader? ::
         !Removed(lines, i, NAMES) {
      forall i | 0 <= i < |lines| && InOtherTable(lines, i)
        ensures !Removed(lines, i, NAMES)
      {
        SeenIsKept(lines, i);
      }
    }
  }

  lemma HeadersOpen(line: string)
    ensures HeaderOf(line).Header? ==> OpensTable(line)
  {
  }

  lemma {:induction false} SeenIsKept(lines: seq<string>, i: nat)
    requires i < |lines| && InOtherTable(lines, i)
    requires forall j | 0 <= j < |lines| && OpensTable(lines[j]) && HeaderOf(lines[j]).NoHeader? ::
               !Removed(lines, j, NAMES)
    ensures !Removed(lines, i, NAMES)
  {
    hide HeaderOf, OpensTable;
    HeadersOpen(lines[i]);
    if !OpensTable(lines[i]) {
      SeenIsKept(lines, i - 1);
    }
  }

  /** A table whose header carries a comment is lost when it follows the server's section. */
  lemma CommentedTableIsLost()
    ensures var lines := ["[" + SERVER + "]", "[x] # mine", "y = 1"];
      InOtherTable(lines, 2) && Removed(lines, 2, NAMES) && Outside(lines, NAMES, 3) == []
  {
    var lines := ["[" + SERVER + "]", "[x] # mine", "y = 1"];
    NamesAreHeaders();
    Commented();
    AsciiStart("y = 1");
    hide HeaderOf, OpensTable;
    assert Removed(lines, 0, NAMES) && Removed(lines, 1, NAMES) && Removed(lines, 2, NAMES);
    assert Outside(lines, NAMES, 1) == [] && Outside(lines, NAMES, 2) == [];
  }

  lemma Commented()
    ensures HeaderOf("[x] # mine").NoHeader? && OpensTable("[x] # mine") && !OpensTable("y = 1")
  {
    var body := "[x] # mine";
    assert LeftTrimmed(body) == body && body[1..] == "x] # mine";
    assert body[1..][1..] == "] # mine" && Bracket(body[1..][1..]) == 0;
    assert Bracket(body[1..]) == 1;
    assert body[1..][2..] == " # mine" && !White(" # mine"[1]);
  }
}
