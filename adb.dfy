/** The ADB adapter: argument building, key lookup, package-name validation,
    text escaping, the parsers for `wm size`, `devices`, `pm list packages`
    and `dumpsys package`, and the adapter's cached fields (device serial,
    screen size, recording state). The adb transport itself is an oracle
    that yields a `CommandResult` or raises. */
module Adb {
  import opened Base
  import opened Strings

  /** The outcome of one adb invocation. */
  datatype CommandResult = CommandResult(stdout: string, stderr: string, exitCode: int) {
    predicate Success() { exitCode == 0 }
  }

  /** `ADBError` with the given message. */
  function Fail<T>(msg: string): Result<T> { Err(Exn(AdbError, msg)) }

  /** A command's result: the transport may raise before any result exists. */
  type Outcome = Result<CommandResult>

  // ---------------------------------------------------------------- command line

  /** Python truthiness of an optional string. */
  predicate Set(o: Option<string>) { o.Some? && o.value != "" }

  /** The argv vector: the adb path, then `-s <serial>` when a serial is set,
      then the arguments unchanged. */
  function BuildCommand(adbPath: string, serial: Option<string>, args: seq<string>): (cmd: seq<string>)
    ensures |cmd| == |args| + (if Set(serial) then 3 else 1)
    ensures cmd[0] == adbPath && cmd[|cmd| - |args|..] == args
    ensures Set(serial) ==> cmd[1] == "-s" && cmd[2] == serial.value
  {
    [adbPath] + (if Set(serial) then ["-s", serial.value] else []) + args
  }

  /** The serial flag never appears without a non-empty serial after it. */
  lemma BuildCommandSerialFlag(adbPath: string, serial: Option<string>, args: seq<string>)
    requires "-s" !in args && adbPath != "-s"
    ensures ("-s" in BuildCommand(adbPath, serial, args)) <==> Set(serial)
  {
    var cmd := BuildCommand(adbPath, serial, args);
    if !Set(serial) {
      assert cmd == [adbPath] + args;
    } else {
      assert cmd[1] == "-s";
    }
  }

  // ---------------------------------------------------------------- keys

  const KeyCodes: map<string, int> := map[
    "back" := 4, "home" := 3, "menu" := 82, "enter" := 66, "delete" := 67,
    "backspace" := 67, "tab" := 61, "space" := 62, "volume_up" := 24,
    "volume_down" := 25, "power" := 26, "camera" := 27, "search" := 84,
    "dpad_up" := 19, "dpad_down" := 20, "dpad_left" := 21, "dpad_right" := 22,
    "dpad_center" := 23, "app_switch" := 187, "recent" := 187]

  /** The key names as Python prints `list(KEY_CODES.keys())`. */
  const KeyNamesRepr: string :=
    "['back', 'home', 'menu', 'enter', 'delete', 'backspace', 'tab', 'space', "
    + "'volume_up', 'volume_down', 'power', 'camera', 'search', 'dpad_up', "
    + "'dpad_down', 'dpad_left', 'dpad_right', 'dpad_center', 'app_switch', 'recent']"

  /** The argument of `press_key`: a key name or a raw key code. */
  datatype KeyArg = KeyName(name: string) | KeyCode(code: int)

  /** A key name as it is looked up: lower case, spaces as underscores. */
  function NormalizeKey(name: string): (k: string)
    ensures ' ' !in k
  {
    ReplaceChar(Lower(name), ' ', "_")
  }

  /** The key code `press_key` sends; an unknown name raises ADBError. */
  function KeyCodeOf(key: KeyArg): (r: Result<int>)
    ensures key.KeyCode? ==> r == Ok(key.code)
    ensures key.KeyName? ==> (r.Ok? <==> NormalizeKey(key.name) in KeyCodes)
    ensures key.KeyName? && r.Ok? ==> r.value == KeyCodes[NormalizeKey(key.name)]
    ensures r.Err? ==> r.exn == Exn(AdbError, "Unknown key: " + key.name + ". Valid keys: " + KeyNamesRepr)
  {
    match key
    case KeyCode(c) => Ok(c)
    case KeyName(n) =>
      var k := NormalizeKey(n);
      if k in KeyCodes then Ok(KeyCodes[k])
      else Fail("Unknown key: " + n + ". Valid keys: " + KeyNamesRepr)
  }

  /** The shell command `press_key` issues. */
  function PressKeyCommand(key: KeyArg): (r: Result<string>)
    ensures r.Ok? <==> KeyCodeOf(key).Ok?
    ensures r.Ok? ==> r.value == "input keyevent " + IntToString(KeyCodeOf(key).value)
  {
    var code :- KeyCodeOf(key);
    Ok("input keyevent " + IntToString(code))
  }

  /** A lower-case key name is found as it is. */
  lemma KnownKeyName(name: string)
    requires forall i :: 0 <= i < |name| ==> 'a' <= name[i] <= 'z' || name[i] == '_'
    requires name in KeyCodes
    ensures KeyCodeOf(KeyName(name)) == Ok(KeyCodes[name])
  {
    NormalizeLowerWord(name);
  }

  lemma KeyBack() ensures KeyCodeOf(KeyName("back")) == Ok(4) { KnownKeyName("back"); }
  lemma KeyEnter() ensures KeyCodeOf(KeyName("enter")) == Ok(66) { KnownKeyName("enter"); }

  /** Key names are matched ignoring ASCII case, with each space read as an
      underscore. */
  lemma NormalizeKeyCharwise(name: string)
    ensures |NormalizeKey(name)| == |name|
    ensures forall i :: 0 <= i < |name| ==>
      NormalizeKey(name)[i] == if name[i] == ' ' then '_' else LowerChar(name[i])
  {
    ReplaceCharPointwise(Lower(name), ' ', '_');
  }

  lemma UnknownKeyRaises()
    ensures KeyCodeOf(KeyName("x")).Err?
  {
    NormalizeLowerWord("x");
  }

  /** A lower-case name without spaces is looked up as it is. */
  lemma NormalizeLowerWord(name: string)
    requires forall i :: 0 <= i < |name| ==> 'a' <= name[i] <= 'z' || name[i] == '_'
    ensures NormalizeKey(name) == name
  {
    assert Lower(name) == name;
    ReplaceCharAbsent(name, ' ', "_");
  }

  // ---------------------------------------------------------------- package names

  predicate PackageChar(c: char) { IsAsciiLetter(c) || IsDigit(c) || c == '_' || c == '.' }

  /** The whole string matches `[a-zA-Z][a-zA-Z0-9_.]*`. */
  predicate WellFormedPackage(s: string) {
    |s| >= 1 && IsAsciiLetter(s[0]) && forall i :: 1 <= i < |s| ==> PackageChar(s[i])
  }

  /** `re.match(r"^[a-zA-Z][a-zA-Z0-9_.]*$", s)` as written: `$` also matches
      just before a final newline, so one trailing "\n" is accepted. */
  predicate PackageRegexMatches(s: string) {
    WellFormedPackage(s) || (|s| >= 2 && s[|s| - 1] == '\n' && WellFormedPackage(s[..|s| - 1]))
  }

  /** The pattern, like Python's `$`, also accepts a name followed by one
      newline, which is not itself a well-formed name. */
  lemma PackageRegexAcceptsTrailingNewline()
    ensures PackageRegexMatches("a\n") && !WellFormedPackage("a\n")
  {
    assert "a\n"[..1] == "a";
  }

  /** The name an accepted package contributes: without its final newline. */
  function PackageWord(s: string): string {
    if |s| >= 1 && s[|s| - 1] == '\n' then s[..|s| - 1] else s
  }

  /** An accepted name adds exactly one shell word to the command, made of
      package characters only: no blank, quote or metacharacter gets through. */
  lemma AcceptedPackageIsOneWord(s: string)
    requires PackageRegexMatches(s)
    ensures forall i :: 0 <= i < |PackageWord(s)| ==> PackageChar(PackageWord(s)[i])
    ensures SplitWs(s) == [PackageWord(s)]
  {
    var w := PackageWord(s);
    assert WellFormedPackage(w);
    assert forall i :: 0 <= i < |w| ==> PackageChar(w[i]) && !IsSpace(w[i]);
    if |s| >= 1 && s[|s| - 1] == '\n' {
      WordEndBefore(s, 0, |w|);
      assert SplitWsFrom(s, |s|) == [];
      assert SplitWsFrom(s, |w|) == [];
      assert s[0..|w|] == w;
    } else {
      assert IsToken(s);
      SplitWsWord(s);
    }
  }

  /** The validation every package command shares: ADBError before any shell call. */
  function PackageCommand(prefix: string, pkg: string): (r: Result<string>)
    ensures r.Ok? <==> PackageRegexMatches(pkg)
    ensures r.Ok? ==> r.value == prefix + pkg
    ensures r.Err? ==> r.exn == Exn(AdbError, "Invalid package name format: " + pkg)
  {
    if PackageRegexMatches(pkg) then Ok(prefix + pkg)
    else Fail("Invalid package name format: " + pkg)
  }

  /** `stop_app`: the shell command it would issue. */
  function StopAppCommand(pkg: string): (r: Result<string>)
    ensures r.Ok? <==> PackageRegexMatches(pkg)
    ensures r.Ok? ==> r.value == "am force-stop " + pkg
  {
    PackageCommand("am force-stop ", pkg)
  }

  /** `clear_app_data`: the shell command it would issue. */
  function ClearAppDataCommand(pkg: string): (r: Result<string>)
    ensures r.Ok? <==> PackageRegexMatches(pkg)
    ensures r.Ok? ==> r.value == "pm clear " + pkg
  {
    PackageCommand("pm clear ", pkg)
  }

  /** A dotted package name is accepted and forwarded. */
  lemma StopAppAccepts()
    ensures StopAppCommand("com.example.app") == Ok("am force-stop com.example.app")
  {
    var good := "com.example.app";
    assert forall i :: 1 <= i < |good| ==> PackageChar(good[i]);
    assert PackageRegexMatches(good);
    assert "am force-stop " + good == "am force-stop com.example.app";
  }

  /** A name carrying a shell command is refused before any command. */
  lemma StopAppRefuses()
    ensures StopAppCommand("invalid;rm -rf /").Err?
  {
    var bad := "invalid;rm -rf /";
    assert bad[7] == ';' && !PackageChar(bad[7]);
    assert bad[|bad| - 1] != '\n';
  }

  // ---------------------------------------------------------------- text escaping

  /** The `replace` calls of `type_text`, in their order. */
  const EscapeRules: seq<(char, string)> := [
    ('\\', "\\\\"), ('"', "\\\""), ('\'', "\\'"), (' ', "%s"), ('&', "\\&"), ('<', "\\<"),
    ('>', "\\>"), ('|', "\\|"), (';', "\\;"), ('(', "\\("), (')', "\\)")]

  function EscapeText(text: string): string {
    ReplaceAll(text, EscapeRules)
  }


  /** The shell command `type_text` issues. */
  function TypeTextCommand(text: string): string {
    "input text '" + EscapeText(text) + "'"
  }

  predicate ShellSpecial(c: char) { c in "\"'&<>|;()" }

  /** The escape of one character, as the chain of replacements works out. */
  function EscapeChar(c: char): string {
    if c == '\\' then "\\\\"
    else if c == ' ' then "%s"
    else if ShellSpecial(c) then ['\\', c]
    else [c]
  }

  /** Character-wise escaping, the reference for the chain. */
  function EscapeChars(s: string): string {
    ConcatMap(s, EscapeChar)
  }

  /** Each rule inserts only characters that no later rule looks for, and
      no character has two rules. */
  lemma EscapeRulesSafe()
    ensures forall i, j :: 0 <= i < j < |EscapeRules| ==>
      EscapeRules[j].0 != EscapeRules[i].0 && EscapeRules[j].0 !in EscapeRules[i].1
  {
  }

  /** The rules agree with the character-wise escape. */
  lemma EscapeRulesChar()
    ensures forall i :: 0 <= i < |EscapeRules| ==> EscapeChar(EscapeRules[i].0) == EscapeRules[i].1
  {
  }

  /** A character without a rule is its own escape. */
  lemma EscapeRuleless(c: char)
    requires forall i :: 0 <= i < |EscapeRules| ==> EscapeRules[i].0 != c
    ensures EscapeChar(c) == [c]
  {
    var R := EscapeRules;
    assert R[0].0 != c && R[1].0 != c && R[2].0 != c && R[3].0 != c && R[4].0 != c && R[5].0 != c;
    assert R[6].0 != c && R[7].0 != c && R[8].0 != c && R[9].0 != c && R[10].0 != c;
  }

  lemma EscapeOneChar(x: char)
    ensures EscapeText([x]) == EscapeChar(x)
  {
    var R := EscapeRules;
    EscapeRulesSafe();
    EscapeRulesChar();
    if i :| 0 <= i < |R| && R[i].0 == x {
      ReplaceAllChar(x, R, i);
    } else {
      ReplaceAllKeeps([x], R);
      EscapeRuleless(x);
    }
  }

  /** The chain of `replace` calls is the same as escaping each character on
      its own. */
  lemma EscapeTextIsCharwise(s: string)
    ensures EscapeText(s) == EscapeChars(s)
  {
    forall c ensures ReplaceAll([c], EscapeRules) == EscapeChar(c) {
      EscapeOneChar(c);
    }
    ReplaceAllCharwise(s, EscapeRules, EscapeChar);
  }

  /** Escaped text contains no space: each space became "%s". */
  lemma {:induction false} EscapeCharsNoSpace(s: string)
    ensures ' ' !in EscapeChars(s)
  {
    if s != [] {
      EscapeCharsNoSpace(s[1..]);
    }
  }

  /** Each shell metacharacter in escaped text is directly preceded by a
      backslash. */
  lemma {:induction false} EscapeCharsGuarded(s: string)
    ensures forall i :: 0 <= i < |EscapeChars(s)| && ShellSpecial(EscapeChars(s)[i]) ==> i > 0 && EscapeChars(s)[i - 1] == '\\'
  {
    if s != [] {
      EscapeCharsGuarded(s[1..]);
      var h := EscapeChar(s[0]);
      var t := EscapeChars(s[1..]);
      assert EscapeChars(s) == h + t;
      forall i | 0 <= i < |h + t| && ShellSpecial((h + t)[i]) ensures i > 0 && (h + t)[i - 1] == '\\' {
        if i >= |h| {
          assert (h + t)[i] == t[i - |h|];
          if i - |h| == 0 {
            assert false;
          }
        }
      }
    }
  }

  lemma TypeTextProperties(text: string)
    ensures ' ' !in EscapeText(text)
    ensures forall i :: 0 <= i < |EscapeText(text)| && ShellSpecial(EscapeText(text)[i]) ==> i > 0 && EscapeText(text)[i - 1] == '\\'
  {
    EscapeTextIsCharwise(text);
    EscapeCharsNoSpace(text);
    EscapeCharsGuarded(text);
  }

  // ---------------------------------------------------------------- screen size

  /** Where `(\d+)x(\d+)` matches when tried at position i: a digit run, an
      'x', a digit run, both taken greedily. */
  function SizeAt(s: string, i: nat): Option<(nat, nat)>
    requires i <= |s|
  {
    var j := DigitRunEnd(s, i);
    if j == i || j >= |s| || s[j] != 'x' then None
    else
      var k := DigitRunEnd(s, j + 1);
      if k == j + 1 then None else Some((DigitsValue(s[i..j]), DigitsValue(s[j + 1..k])))
  }

  /** `re.search(r"(\d+)x(\d+)", s)` from position i: the leftmost match. */
  function SearchSize(s: string, i: nat): Option<(nat, nat)>
    requires i <= |s|
    decreases |s| - i
  {
    if SizeAt(s, i).Some? then SizeAt(s, i)
    else if i == |s| then None
    else SearchSize(s, i + 1)
  }

  /** The search reports the match at the leftmost position from i that
      has one, and nothing when no position has one. */
  lemma {:induction false} SearchSizeLeftmost(s: string, i: nat)
    requires i <= |s|
    decreases |s| - i
    ensures SearchSize(s, i).None? <==> forall j :: i <= j <= |s| ==> SizeAt(s, j).None?
    ensures SearchSize(s, i).Some? ==>
      exists j :: i <= j <= |s| && SizeAt(s, j) == SearchSize(s, i) && forall m :: i <= m < j ==> SizeAt(s, m).None?
  {
    if SizeAt(s, i).None? && i < |s| {
      SearchSizeLeftmost(s, i + 1);
      if SearchSize(s, i).Some? {
        var j :| i + 1 <= j <= |s| && SizeAt(s, j) == SearchSize(s, i + 1)
          && forall m :: i + 1 <= m < j ==> SizeAt(s, m).None?;
        assert forall m :: i <= m < j ==> SizeAt(s, m).None?;
      }
    }
  }

  function ParseScreenSize(stdout: string): Option<(nat, nat)> {
    SearchSize(stdout, 0)
  }

  /** What `get_screen_size` returns when it has to ask the device. */
  function ScreenSizeFromShell(out: Outcome): (r: Result<(int, int)>)
    ensures r.Ok? <==> out.Ok? && out.value.Success() && ParseScreenSize(out.value.stdout).Some?
    ensures r.Ok? ==> r.value == (ParseScreenSize(out.value.stdout).value.0, ParseScreenSize(out.value.stdout).value.1)
    ensures r.Ok? ==> r.value.0 >= 0 && r.value.1 >= 0
    ensures out.Err? ==> r == Err(out.exn)
    ensures out.Ok? && !out.value.Success() ==> r == Fail("Failed to get screen size")
    ensures out.Ok? && r.Err? ==> r.exn.kind == AdbError
  {
    match out
    case Err(e) => Err(e)
    case Ok(res) =>
      if !res.Success() then Fail("Failed to get screen size")
      else match ParseScreenSize(res.stdout)
        case None => Fail("Could not parse screen size: " + res.stdout)
        case Some(wh) => Ok((wh.0, wh.1))
  }

  lemma {:induction false} NoDigitsNoSize(s: string, i: nat, p: nat)
    requires i <= p <= |s|
    requires forall j :: i <= j < p ==> !IsDigit(s[j])
    ensures forall j :: i <= j < p ==> SizeAt(s, j).None?
  {
  }

  /** A size printed as "WxH" after digit-free text and before a non-digit
      parses back to (W, H). */
  lemma ParseScreenSizePrinted(prefix: string, w: nat, h: nat, rest: string)
    requires forall j :: 0 <= j < |prefix| ==> !IsDigit(prefix[j])
    requires rest == [] || !IsDigit(rest[0])
    ensures ParseScreenSize(prefix + NatToString(w) + "x" + NatToString(h) + rest) == Some((w, h))
  {
    NatToStringDigits(w);
    NatToStringDigits(h);
    ScreenSizeDigits(prefix, NatToString(w), NatToString(h), rest);
  }

  /** Two digit runs around an "x" after digit-free text read back as
      their values. */
  lemma ScreenSizeDigits(prefix: string, W: string, H: string, rest: string)
    requires forall j :: 0 <= j < |prefix| ==> !IsDigit(prefix[j])
    requires W != [] && AllDigits(W) && H != [] && AllDigits(H)
    requires rest == [] || !IsDigit(rest[0])
    ensures ParseScreenSize(prefix + W + "x" + H + rest) == Some((DigitsValue(W), DigitsValue(H)))
  {
    var s := prefix + W + "x" + H + rest;
    var p := |prefix|;
    var j := p + |W|;
    var k := j + 1 + |H|;
    assert j + 1 < k <= |s| && s[j] == 'x' && s[p..j] == W && s[j + 1..k] == H && (k == |s| || !IsDigit(s[k]))
      && forall i :: 0 <= i < p ==> !IsDigit(s[i])
    by {
      SizeTextParts(prefix, W, H, rest);
    }
    SearchSizeFinds(s, p, j, k);
  }

  /** Digit-free text up to a match: the search finds that match. */
  lemma SearchSizeFinds(s: string, p: nat, j: nat, k: nat)
    requires p < j && j + 1 < k <= |s| && s[j] == 'x'
    requires forall i :: 0 <= i < p ==> !IsDigit(s[i])
    requires AllDigits(s[p..j]) && AllDigits(s[j + 1..k]) && (k == |s| || !IsDigit(s[k]))
    ensures SearchSize(s, 0) == Some((DigitsValue(s[p..j]), DigitsValue(s[j + 1..k])))
  {
    DigitRunEndIs(s, p, j);
    DigitRunEndIs(s, j + 1, k);
    SizeAtIs(s, p, j, k);
    NoDigitsNoSize(s, 0, p);
    SearchSkips(s, 0, p);
  }

  /** Where the parts of a printed size sit in the text. */
  lemma SizeTextParts(prefix: string, W: string, H: string, rest: string)
    requires rest == [] || !IsDigit(rest[0])
    ensures var s := prefix + W + "x" + H + rest; var q := |prefix| + |W| + 1;
      && s[|prefix|..|prefix| + |W|] == W && s[|prefix| + |W|] == 'x' && s[q..q + |H|] == H && q + |H| <= |s|
      && (q + |H| == |s| || !IsDigit(s[q + |H|]))
      && forall j :: 0 <= j < |prefix| ==> s[j] == prefix[j]
  {
    var s := prefix + W + "x" + H + rest;
    var q := |prefix| + |W| + 1;
    assert s == prefix + (W + ("x" + (H + rest)));
    if rest != [] {
      assert s[q + |H|] == rest[0];
    }
  }

  /** A complete match of the size pattern at position i. */
  lemma SizeAtIs(s: string, i: nat, j: nat, k: nat)
    requires i < j && j + 1 < k <= |s| && s[j] == 'x'
    requires DigitRunEnd(s, i) == j && DigitRunEnd(s, j + 1) == k
    ensures SizeAt(s, i) == Some((DigitsValue(s[i..j]), DigitsValue(s[j + 1..k])))
  {
  }

  lemma {:induction false} SearchSkips(s: string, i: nat, p: nat)
    requires i <= p <= |s|
    requires forall j :: i <= j < p ==> SizeAt(s, j).None?
    ensures SearchSize(s, i) == SearchSize(s, p)
    decreases p - i
  {
    if i < p {
      SearchSkips(s, i + 1, p);
    }
  }

  /** The size line a device prints reads back as its width and height. */
  lemma ScreenSizeExample()
    ensures ParseScreenSize("Physical size: 1080x2340\n") == Some((1080, 2340))
  {
    var prefix := "Physical size: ";
    assert forall j :: 0 <= j < |prefix| ==> !IsDigit(prefix[j]);
    ParseScreenSizePrinted(prefix, 1080, 2340, "\n");
    PrintedSize();
  }

  lemma PrintedSize()
    ensures "Physical size: " + NatToString(1080) + "x" + NatToString(2340) + "\n" == "Physical size: 1080x2340\n"
  {
    assert NatToString(1080) == "1080";
    assert NatToString(2340) == "2340";
  }

  // ---------------------------------------------------------------- devices

  /** The whitespace fields of one line of `adb devices` output. */
  function Fields(line: string): seq<string> { SplitWs(Strip(line)) }

  /** The lines after the header of `adb devices`. */
  function DeviceLines(stdout: string): seq<string> {
    SplitOn(Strip(stdout), '\n')[1..]
  }

  /** A line naming a device in state "device". */
  predicate ReadyLine(line: string) {
    |Fields(line)| >= 2 && Fields(line)[1] == "device"
  }

  /** A ready line that also agrees with the wanted serial, if there is one. */
  predicate ConnectLine(line: string, want: Option<string>) {
    ReadyLine(line) && (want.None? || Fields(line)[0] == want.value)
  }

  /** The index of the first line from i on satisfying ConnectLine, or -1. */
  function FirstConnectFrom(lines: seq<string>, want: Option<string>, i: nat): (k: int)
    decreases |lines| - i
    ensures k == -1 || (i <= k < |lines| && ConnectLine(lines[k], want))
    ensures k == -1 ==> forall j :: i <= j < |lines| ==> !ConnectLine(lines[j], want)
    ensures k >= 0 ==> forall j :: i <= j < k ==> !ConnectLine(lines[j], want)
  {
    if i >= |lines| then -1
    else if ConnectLine(lines[i], want) then i
    else FirstConnectFrom(lines, want, i + 1)
  }

  /** What `get_device_serial` returns once it has listed the devices. */
  function SerialFromDevices(out: Outcome): (r: Result<string>)
    ensures out.Err? ==> r == Err(out.exn)
    ensures out.Ok? && !out.value.Success() ==> r == Fail("Failed to list devices")
    ensures r.Ok? <==> out.Ok? && out.value.Success() && FirstConnectFrom(DeviceLines(out.value.stdout), None, 0) >= 0
    ensures r.Ok? ==> var lines := DeviceLines(out.value.stdout);
      r.value == Fields(lines[FirstConnectFrom(lines, None, 0)])[0]
    ensures out.Ok? && out.value.Success() && r.Err? ==> r == Fail("No connected devices found")
  {
    match out
    case Err(e) => Err(e)
    case Ok(res) =>
      if !res.Success() then Fail("Failed to list devices")
      else
        var lines := DeviceLines(res.stdout);
        var k := FirstConnectFrom(lines, None, 0);
        if k < 0 then Fail("No connected devices found") else Ok(Fields(lines[k])[0])
  }

  /** The serial found is the first field of the first ready line, and the
      listing fails with "No connected devices found" exactly when no line
      is ready. */
  lemma SerialIsFirstReady(out: Outcome)
    requires out.Ok? && out.value.Success()
    ensures var lines := DeviceLines(out.value.stdout); var r := SerialFromDevices(out);
      r.Ok? <==> exists k :: 0 <= k < |lines| && ReadyLine(lines[k])
    ensures var lines := DeviceLines(out.value.stdout); var r := SerialFromDevices(out);
      r.Ok? ==> exists k :: && 0 <= k < |lines| && ReadyLine(lines[k])
                           && (forall j :: 0 <= j < k ==> !ReadyLine(lines[j]))
                           && r.value == Fields(lines[k])[0]
  {
    var lines := DeviceLines(out.value.stdout);
    var k := FirstConnectFrom(lines, None, 0);
    if k >= 0 {
      assert forall j :: 0 <= j < k ==> !ConnectLine(lines[j], None);
    } else {
      assert forall j :: 0 <= j < |lines| ==> !ConnectLine(lines[j], None);
    }
  }

  // ---------------------------------------------------------------- packages and app info

  /** The `pm list packages` command for a filter type. */
  function ListPackagesCommand(filterType: Option<string>): string {
    "pm list packages"
    + (if filterType == Some("system") then " -s" else if filterType == Some("third-party") then " -3" else "")
  }

  /** The package a "package:" line names, if it passes the text filter. */
  predicate ListedPackage(line: string, filterText: Option<string>) {
    IsPrefix("package:", line)
    && (filterText.None? || Contains(Lower(filterText.value), Lower(Strip(line[8..]))))
  }

  /** The packages named by the listed lines, in output order. */
  function PackagesIn(lines: seq<string>, filterText: Option<string>): (r: seq<string>)
    ensures |r| <= |lines|
  {
    if lines == [] then []
    else
      (if ListedPackage(lines[0], filterText) then [Strip(lines[0][8..])] else [])
      + PackagesIn(lines[1..], filterText)
  }

  /** A name is listed exactly when some accepted line carries it. */
  lemma {:induction false} PackagesInIff(lines: seq<string>, filterText: Option<string>, p: string)
    ensures p in PackagesIn(lines, filterText) <==>
      exists k :: 0 <= k < |lines| && ListedPackage(lines[k], filterText) && Strip(lines[k][8..]) == p
  {
    if lines != [] {
      PackagesInIff(lines[1..], filterText, p);
      if exists k :: 1 <= k < |lines| && ListedPackage(lines[k], filterText) && Strip(lines[k][8..]) == p {
        var k :| 1 <= k < |lines| && ListedPackage(lines[k], filterText) && Strip(lines[k][8..]) == p;
        assert lines[1..][k - 1] == lines[k];
      }
      if exists k :: 0 <= k < |lines| - 1 && ListedPackage(lines[1..][k], filterText) && Strip(lines[1..][k][8..]) == p {
        var k :| 0 <= k < |lines| - 1 && ListedPackage(lines[1..][k], filterText) && Strip(lines[1..][k][8..]) == p;
        assert lines[k + 1] == lines[1..][k];
      }
    }
  }

  /** One step of the scan over output lines. */
  lemma PackagesInStep(lines: seq<string>, i: int, filterText: Option<string>)
    requires 0 <= i < |lines|
    ensures PackagesIn(lines[i..], filterText)
      == (if ListedPackage(lines[i], filterText) then [Strip(lines[i][8..])] else [])
         + PackagesIn(lines[i + 1..], filterText)
  {
    assert lines[i..][1..] == lines[i + 1..];
  }

  lemma AppendAssoc(a: seq<string>, b: seq<string>, c: seq<string>)
    ensures (a + b) + c == a + (b + c)
  {
  }

  /** The loop of `list_packages` over the output lines. */
  method CollectPackages(lines: seq<string>, filterText: Option<string>) returns (packages: seq<string>)
    ensures packages == PackagesIn(lines, filterText)
  {
    packages := [];
    var i := 0;
    while i < |lines|
      invariant 0 <= i <= |lines|
      invariant packages + PackagesIn(lines[i..], filterText) == PackagesIn(lines, filterText)
    {
      PackagesInStep(lines, i, filterText);
      ghost var head := if ListedPackage(lines[i], filterText) then [Strip(lines[i][8..])] else [];
      ghost var before := packages;
      if IsPrefix("package:", lines[i]) {
        var pkg := Strip(lines[i][8..]);
        if filterText.None? || Contains(Lower(filterText.value), Lower(pkg)) {
          packages := packages + [pkg];
        }
      }
      assert packages == before + head;
      AppendAssoc(before, head, PackagesIn(lines[i + 1..], filterText));
      i := i + 1;
    }
    assert lines[i..] == [];
  }

  /** `list_packages`: the collected names, then `sorted`. A failed
      command yields []; a transport error propagates. */
  method ListPackages(filterType: Option<string>, filterText: Option<string>, shell: string -> Outcome)
    returns (r: Result<seq<string>>)
    ensures var out := shell(ListPackagesCommand(filterType));
      r == (if out.Err? then Err(out.exn)
            else if !out.value.Success() then Ok([])
            else Ok(SortLex(PackagesIn(SplitOn(out.value.stdout, '\n'), filterText))))
  {
    var out := shell(ListPackagesCommand(filterType));
    if out.Err? {
      return Err(out.exn);
    }
    if !out.value.Success() {
      return Ok([]);
    }
    var packages := CollectPackages(SplitOn(out.value.stdout, '\n'), filterText);
    return Ok(SortLex(packages));
  }

  /** What one line of `dumpsys package` means to the permission scan. */
  datatype PermLine =
    | Header                   // mentions "requested permissions:" in any case
    | Permission(name: string) // stripped, starts with "android.permission."
    | OtherAndroid             // stripped, starts with "android." otherwise
    | Plain                    // anything else

  function PermLineKind(line: string): (k: PermLine)
    ensures k.Permission? ==> k.name == Strip(line) && IsPrefix("android.permission.", k.name)
  {
    if Contains("requested permissions:", Lower(line)) then Header
    else if IsPrefix("android.permission.", Strip(line)) then Permission(Strip(line))
    else if IsPrefix("android.", Strip(line)) then OtherAndroid
    else Plain
  }

  /** The permission lines of `dumpsys package`, scanning with the
      in-section flag: a header line opens the section; inside it,
      permission lines are collected, other "android." lines are
      skipped, and the first other line ends the scan. */
  function PermissionsIn(lines: seq<string>, inSection: bool): seq<string> {
    if lines == [] then []
    else
      match PermLineKind(lines[0])
      case Header => PermissionsIn(lines[1..], true)
      case Permission(p) => if inSection then [p] + PermissionsIn(lines[1..], true) else PermissionsIn(lines[1..], false)
      case OtherAndroid => PermissionsIn(lines[1..], inSection)
      case Plain => if inSection then [] else PermissionsIn(lines[1..], false)
  }

  /** Before the section opens nothing is collected. */
  lemma {:induction false} PermissionsNeedHeader(lines: seq<string>)
    requires forall k :: 0 <= k < |lines| ==> !Contains("requested permissions:", Lower(lines[k]))
    ensures PermissionsIn(lines, false) == []
  {
    if lines != [] {
      PermissionsNeedHeader(lines[1..]);
    }
  }

  /** Each collected permission is a stripped line of the output that
      starts with "android.permission.". */
  lemma {:induction false} PermissionsAreLines(lines: seq<string>, inSection: bool, p: string)
    requires p in PermissionsIn(lines, inSection)
    ensures IsPrefix("android.permission.", p)
    ensures exists k :: 0 <= k < |lines| && Strip(lines[k]) == p
  {
    var kind := PermLineKind(lines[0]);
    if kind.Permission? && inSection && p == kind.name {
      assert Strip(lines[0]) == p;
    } else {
      PermissionsAreLines(lines[1..], kind.Header? || inSection, p);
      var k :| 0 <= k < |lines| - 1 && Strip(lines[1..][k]) == p;
      assert lines[k + 1] == lines[1..][k];
    }
  }

  /** One line of the permission scan: the rest of the scan after line i. */
  lemma PermissionsStep(lines: seq<string>, i: nat, inSection: bool)
    requires i < |lines|
    ensures var kind := PermLineKind(lines[i]); var rest := lines[i + 1..];
      PermissionsIn(lines[i..], inSection) ==
        match kind
        case Header => PermissionsIn(rest, true)
        case Permission(p) => if inSection then [p] + PermissionsIn(rest, true) else PermissionsIn(rest, false)
        case OtherAndroid => PermissionsIn(rest, inSection)
        case Plain => if inSection then [] else PermissionsIn(rest, false)
  {
    assert lines[i..][0] == lines[i];
    assert lines[i..][1..] == lines[i + 1..];
  }

  /** The loop of `get_app_info` that collects permissions. */
  method ParsePermissions(stdout: string) returns (permissions: seq<string>)
    ensures permissions == PermissionsIn(SplitOn(stdout, '\n'), false)
  {
    var lines := SplitOn(stdout, '\n');
    permissions := [];
    var inSection := false;
    var i := 0;
    while i < |lines|
      invariant 0 <= i <= |lines|
      invariant permissions + PermissionsIn(lines[i..], inSection) == PermissionsIn(lines, false)
    {
      var kind := PermLineKind(lines[i]);
      PermissionsStep(lines, i, inSection);
      ghost var before := permissions;
      if kind.Header? {
        inSection := true;
      } else if inSection {
        if kind.Permission? {
          permissions := permissions + [kind.name];
          AppendAssoc(before, [kind.name], PermissionsIn(lines[i + 1..], true));
        } else if kind.Plain? {
          assert permissions + [] == permissions;
          break;
        }
      }
      i := i + 1;
    }
    if i == |lines| {
      assert lines[i..] == [];
    }
  }

  /** `re.search(r"versionName=(\S+)", s)` from i: the first occurrence of
      the key that is followed by at least one non-space character. */
  function VersionNameFrom(s: string, i: nat): (r: Option<string>)
    decreases |s| + 1 - i
    ensures r.Some? ==> r.value != [] && NoSpace(r.value)
  {
    var k := IndexFrom(s, "versionName=", i);
    if k < 0 then None
    else
      var v := k + 12;
      var e := WordEnd(s, v);
      WordEndSpec(s, v);
      if e > v then Some(s[v..e]) else VersionNameFrom(s, k + 1)
  }

  /** After the first key, a printed name that a space or the end follows
      is the version name found. */
  lemma VersionNamePrinted(prefix: string, name: string, rest: string)
    requires !Contains("versionName=", prefix)
    requires name != [] && NoSpace(name)
    requires rest == [] || IsSpace(rest[0])
    ensures VersionNameFrom(prefix + "versionName=" + name + rest, 0) == Some(name)
  {
    var key := "versionName=";
    assert forall k :: 0 < k < |key| ==> key[k] != key[0];
    var s := prefix + key + name + rest;
    assert s == prefix + key + (name + rest);
    KeyFirst(prefix, key, name + rest);
    var v := |prefix| + |key|;
    assert s[v..v + |name|] == name;
    assert rest != [] ==> s[v + |name|] == rest[0];
    WordEndAt(s, v, name);
  }

  /** `re.search(key + r"(\d+)", s)` from i, converted with `int`: the
      first occurrence of the key that a digit follows. */
  function KeyedNatFrom(s: string, key: string, i: nat): Option<nat>
    decreases |s| + 1 - i
  {
    var k := IndexFrom(s, key, i);
    if k < 0 then None
    else
      match ParseNatAt(s, k + |key|)
      case Some(ve) => Some(ve.0)
      case None => KeyedNatFrom(s, key, k + 1)
  }

  /** `re.search(r"versionCode=(\d+)", s)` from i, converted with `int`. */
  function VersionCodeFrom(s: string, i: nat): Option<nat> {
    KeyedNatFrom(s, "versionCode=", i)
  }

  /** After a key at a position, a printed number is the version code found. */
  lemma VersionCodePrinted(prefix: string, n: nat, rest: string)
    requires !Contains("versionCode=", prefix)
    requires rest == [] || !IsDigit(rest[0])
    ensures VersionCodeFrom(prefix + "versionCode=" + NatToString(n) + rest, 0) == Some(n)
  {
    NatToStringDigits(n);
    var key := "versionCode=";
    assert forall k :: 0 < k < |key| ==> key[k] != key[0];
    KeyedDigits(prefix, key, NatToString(n), rest);
  }

  /** A digit run after the first occurrence of a key is what the search reads. */
  lemma KeyedDigits(prefix: string, key: string, D: string, rest: string)
    requires key != [] && forall k :: 0 < k < |key| ==> key[k] != key[0]
    requires !Contains(key, prefix)
    requires D != [] && AllDigits(D)
    requires rest == [] || !IsDigit(rest[0])
    ensures KeyedNatFrom(prefix + key + D + rest, key, 0) == Some(DigitsValue(D))
  {
    var s := prefix + key + D + rest;
    var p := |prefix|;
    assert s == prefix + key + (D + rest);
    KeyFirst(prefix, key, D + rest);
    CodeTextParts(prefix + key, D, rest);
    KeyedNatAt(s, key, p, p + |key| + |D|);
  }

  /** Where the digits of a printed code sit in the text. */
  lemma CodeTextParts(head: string, D: string, rest: string)
    requires rest == [] || !IsDigit(rest[0])
    ensures var s := head + D + rest; var e := |head| + |D|;
      e <= |s| && s[|head|..e] == D && (e == |s| || !IsDigit(s[e]))
  {
    var s := head + D + rest;
    if rest != [] {
      assert s[|head| + |D|] == rest[0];
    }
  }

  /** The first key is at p and a digit run follows it. */
  lemma KeyedNatAt(s: string, key: string, p: nat, e: nat)
    requires IndexFrom(s, key, 0) == p
    requires p + |key| < e <= |s| && AllDigits(s[p + |key|..e]) && (e == |s| || !IsDigit(s[e]))
    ensures KeyedNatFrom(s, key, 0) == Some(DigitsValue(s[p + |key|..e]))
  {
    ParseNatAtIs(s, p + |key|, e);
  }

  /** A key after key-free text is the first occurrence of the key, when
      the key's first letter does not recur in it. */
  lemma KeyFirst(prefix: string, key: string, t: string)
    requires key != [] && forall k :: 0 < k < |key| ==> key[k] != key[0]
    requires !Contains(key, prefix)
    ensures IndexFrom(prefix + key + t, key, 0) == |prefix|
  {
    var s := prefix + key + t;
    var p := |prefix|;
    assert OccursAt(key, s, p) by {
      assert s[p..p + |key|] == key;
    }
    ContainsIff(key, prefix);
    forall j | 0 <= j < p ensures !OccursAt(key, s, j) {
      if j + |key| <= p {
        assert prefix[j..j + |key|] == s[j..j + |key|];
        assert !OccursAt(key, prefix, j);
      } else {
        KeyDoesNotOverlap(s, key, p, j);
      }
    }
    IndexFromIs(s, key, 0, p);
  }

  /** A key whose first letter does not recur in it cannot occur
      overlapping a later occurrence. */
  lemma KeyDoesNotOverlap(s: string, key: string, p: nat, j: nat)
    requires key != [] && forall k :: 0 < k < |key| ==> key[k] != key[0]
    requires OccursAt(key, s, p) && j < p < j + |key|
    ensures !OccursAt(key, s, j)
  {
    assert s[p] == s[p..p + |key|][0] == key[0];
    if j + |key| <= |s| {
      assert s[j..j + |key|][p - j] == s[p];
    }
  }

  datatype AppInfo = AppInfo(package: string, versionName: Option<string>, versionCode: Option<nat>, permissions: seq<string>)

  /** `get_app_info`: validation before any command, then the parse of
      `dumpsys package`. */
  method GetAppInfo(package: string, shell: string -> Outcome) returns (r: Result<AppInfo>, calledShell: bool)
    ensures calledShell <==> PackageRegexMatches(package)
    ensures !calledShell ==> r == Fail("Invalid package name format: " + package)
    ensures calledShell && shell("dumpsys package " + package).Err? ==> r == Err(shell("dumpsys package " + package).exn)
    ensures calledShell && shell("dumpsys package " + package).Ok? ==>
      var res := shell("dumpsys package " + package).value;
      r == (if !res.Success() then Fail("Failed to get app info: " + res.stderr)
            else Ok(AppInfo(package, VersionNameFrom(res.stdout, 0), VersionCodeFrom(res.stdout, 0),
                            PermissionsIn(SplitOn(res.stdout, '\n'), false))))
  {
    if !PackageRegexMatches(package) {
      return Fail("Invalid package name format: " + package), false;
    }
    calledShell := true;
    var out := shell("dumpsys package " + package);
    if out.Err? {
      return Err(out.exn), true;
    }
    if !out.value.Success() {
      return Fail("Failed to get app info: " + out.value.stderr), true;
    }
    var perms := ParsePermissions(out.value.stdout);
    r := Ok(AppInfo(package, VersionNameFrom(out.value.stdout, 0), VersionCodeFrom(out.value.stdout, 0), perms));
  }

  // ---------------------------------------------------------------- logcat

  /** The filter argument of `get_logcat`, if any. */
  function LogcatFilter(tag: string, level: string): seq<string> {
    if tag != "" && level != "" then [tag + ":" + level + " *:S"]
    else if tag != "" then [tag + ":V *:S"]
    else if level != "" then ["*:" + level]
    else []
  }

  /** The shell commands `get_logcat` issues, in order ("" = not given). */
  function LogcatCommands(lines: int, tag: string, level: string, since: string, clear: bool): (cmds: seq<string>)
    ensures |cmds| == if clear then 2 else 1
    ensures clear ==> cmds[0] == "logcat -c"
  {
    var parts := ["logcat", "-d", "-t " + IntToString(lines)]
      + ((if since != "" then ["-T '" + since + "'"] else []) + LogcatFilter(tag, level));
    (if clear then ["logcat -c"] else []) + [Join(parts, " ")]
  }

  /** The text of the dump command, option by option: the line count, the
      start time when given, then the filter; clearing adds `logcat -c`
      first. */
  lemma LogcatDumpText(lines: int, tag: string, level: string, since: string)
    ensures LogcatCommands(lines, tag, level, since, false) ==
      ["logcat -d -t " + IntToString(lines)
       + (if since != "" then " -T '" + since + "'" else "")
       + (if tag != "" && level != "" then " " + tag + ":" + level + " *:S"
          else if tag != "" then " " + tag + ":V *:S"
          else if level != "" then " *:" + level
          else "")]
    ensures LogcatCommands(lines, tag, level, since, true) ==
      ["logcat -c"] + LogcatCommands(lines, tag, level, since, false)
  {
    var mid := if since != "" then ["-T '" + since + "'"] else [];
    var last := LogcatFilter(tag, level);
    LogcatJoinText(IntToString(lines), mid, last);
    assert (if last == [] then "" else " " + last[0]) ==
      (if tag != "" && level != "" then " " + tag + ":" + level + " *:S"
       else if tag != "" then " " + tag + ":V *:S"
       else if level != "" then " *:" + level
       else "");
    assert (if mid == [] then "" else " " + mid[0]) == (if since != "" then " -T '" + since + "'" else "");
  }

  /** Joining the dump's parts when at most one optional part of each kind
      is present. */
  lemma LogcatJoinText(n: string, mid: seq<string>, last: seq<string>)
    requires |mid| <= 1 && |last| <= 1
    ensures Join(["logcat", "-d", "-t " + n] + (mid + last), " ") ==
      "logcat -d -t " + n + (if mid == [] then "" else " " + mid[0])
      + (if last == [] then "" else " " + last[0])
  {
    var t := "-t " + n;
    var head := ["logcat", "-d", t];
    var m := if mid == [] then "" else " " + mid[0];
    var f := if last == [] then "" else " " + last[0];
    var hm := head + mid;
    assert head + (mid + last) == hm + last;
    LogcatHead(t);
    assert "logcat -d " + t == "logcat -d -t " + n;
    if mid != [] {
      assert mid == [mid[0]];
      JoinAppendOne(head, mid[0], " ");
    } else {
      assert hm == head;
    }
    assert Join(hm, " ") == "logcat -d -t " + n + m;
    if last != [] {
      assert last == [last[0]];
      JoinAppendOne(hm, last[0], " ");
    } else {
      assert hm + last == hm;
    }
  }

  /** The dump always starts with the line-count option and carries the tag
      filter as its last argument. */
  lemma LogcatCommandShape(lines: int, tag: string, level: string, since: string)
    ensures var c := LogcatCommands(lines, tag, level, since, false)[0];
      IsPrefix("logcat -d -t " + IntToString(lines), c)
    ensures tag != "" ==> var c := LogcatCommands(lines, tag, level, since, false)[0];
      IsSuffix(" *:S", c)
  {
    var mid := if since != "" then ["-T '" + since + "'"] else [];
    LogcatJoinShape(IntToString(lines), mid, LogcatFilter(tag, level));
  }

  /** The joined dump command for a printed line count `n`. */
  lemma LogcatJoinShape(n: string, mid: seq<string>, last: seq<string>)
    ensures IsPrefix("logcat -d -t " + n, Join(["logcat", "-d", "-t " + n] + (mid + last), " "))
    ensures |last| == 1 && IsSuffix(" *:S", last[0]) ==>
      IsSuffix(" *:S", Join(["logcat", "-d", "-t " + n] + (mid + last), " "))
  {
    var t := "-t " + n;
    var head := ["logcat", "-d", t];
    var c := Join(head + (mid + last), " ");
    LogcatHead(t);
    JoinPrefix(head, mid + last, " ");
    assert "logcat -d " + t == "logcat -d -t " + n;
    if |last| == 1 && IsSuffix(" *:S", last[0]) {
      var f := last[0];
      assert last == [f];
      JoinEndsWith(head, mid, f, " ");
      SuffixOfSuffix(" *:S", f, c);
    }
  }

  lemma LogcatHead(t: string)
    ensures Join(["logcat", "-d", t], " ") == "logcat -d " + t
  {
    var head := ["logcat", "-d", t];
    assert head[1..] == ["-d", t];
    assert head[1..][1..] == [t];
    assert Join([t], " ") == t;
    assert Join(head[1..], " ") == "-d" + " " + t;
  }

  // ---------------------------------------------------------------- the adapter

  /** The scan of the `adb devices` lines: the first ready line that agrees
      with the wanted serial. */
  method FindConnectLine(lines: seq<string>, want: Option<string>) returns (k: int)
    ensures k == FirstConnectFrom(lines, want, 0)
  {
    var i := 0;
    while i < |lines|
      invariant 0 <= i <= |lines|
      invariant FirstConnectFrom(lines, want, 0) == FirstConnectFrom(lines, want, i)
    {
      var parts := Fields(lines[i]);
      if |parts| >= 2 && parts[1] == "device" && (want.None? || parts[0] == want.value) {
        return i;
      }
      i := i + 1;
    }
    return -1;
  }

  /** What `stop_screen_record` hands back: the refusal when nothing is
      recording, else the remove's exception if it raised (the `finally`
      block wins), else the pull's error or the file read. */
  function StopScreenRecordResult(wasRecording: bool, pull: Outcome, read: Result<seq<bv8>>, rm: Outcome): Result<seq<bv8>> {
    if !wasRecording then Fail("No recording in progress")
    else if rm.Err? then Err(rm.exn)
    else if pull.Err? then Err(pull.exn)
    else if !pull.value.Success() then Fail("Failed to pull recording: " + pull.value.stderr)
    else read
  }

  class AdbAdapter {
    var adbPath: string
    /** None until a device is chosen; "" counts as unset for commands. */
    var deviceSerial: Option<string>
    var screenSize: Option<(int, int)>
    /** Whether a recording process is held. */
    var recording: bool
    var recordingPath: Option<string>

    constructor(serial: Option<string>, adbPath: string)
      ensures this.adbPath == adbPath && deviceSerial == serial
      ensures screenSize == None && !recording && recordingPath == None
    {
      this.adbPath := adbPath;
      deviceSerial := serial;
      screenSize := None;
      recording := false;
      recordingPath := None;
    }

    function Command(args: seq<string>): seq<string>
      reads this
    {
      BuildCommand(adbPath, deviceSerial, args)
    }

    /** `get_screen_size`: the cached size without a shell call, or the parsed
        output of `wm size`, cached on success. */
    method GetScreenSize(wmSize: Outcome) returns (r: Result<(int, int)>, calledShell: bool)
      modifies this
      ensures calledShell <==> old(screenSize).None?
      ensures !calledShell ==> r == Ok(old(screenSize).value) && screenSize == old(screenSize)
      ensures calledShell ==>
        r == ScreenSizeFromShell(wmSize) && screenSize == (if r.Ok? then Some(r.value) else None)
      ensures adbPath == old(adbPath) && deviceSerial == old(deviceSerial)
      ensures recording == old(recording) && recordingPath == old(recordingPath)
    {
      if screenSize.Some? {
        return Ok(screenSize.value), false;
      }
      calledShell := true;
      if wmSize.Err? {
        return Err(wmSize.exn), true;
      }
      var res := wmSize.value;
      if !res.Success() {
        return Fail("Failed to get screen size"), true;
      }
      var m := ParseScreenSize(res.stdout);
      if m.None? {
        return Fail("Could not parse screen size: " + res.stdout), true;
      }
      screenSize := Some((m.value.0, m.value.1));
      r := Ok((m.value.0, m.value.1));
    }

    /** `get_device_serial`: the set serial, or the first ready device of
        `adb devices`, which becomes the serial. */
    method GetDeviceSerial(devices: Outcome) returns (r: Result<string>, listed: bool)
      modifies this
      ensures listed <==> !Set(old(deviceSerial))
      ensures !listed ==> r == Ok(old(deviceSerial).value) && deviceSerial == old(deviceSerial)
      ensures listed ==>
        r == SerialFromDevices(devices) && deviceSerial == (if r.Ok? then Some(r.value) else old(deviceSerial))
      ensures adbPath == old(adbPath) && screenSize == old(screenSize)
      ensures recording == old(recording) && recordingPath == old(recordingPath)
    {
      if Set(deviceSerial) {
        return Ok(deviceSerial.value), false;
      }
      listed := true;
      if devices.Err? {
        return Err(devices.exn), true;
      }
      if !devices.value.Success() {
        return Fail("Failed to list devices"), true;
      }
      var lines := DeviceLines(devices.value.stdout);
      var k := FindConnectLine(lines, None);
      if k >= 0 {
        var parts := Fields(lines[k]);
        deviceSerial := Some(parts[0]);
        return Ok(parts[0]), true;
      }
      r := Fail("No connected devices found");
    }

    /** `check_connection`: true when some ready device agrees with the
        serial (any device when none is set, and it becomes the serial). */
    method CheckConnection(devices: Outcome) returns (r: Result<bool>)
      modifies this
      ensures devices.Err? ==> r == Err(devices.exn) && deviceSerial == old(deviceSerial)
      ensures devices.Ok? && !devices.value.Success() ==> r == Ok(false) && deviceSerial == old(deviceSerial)
      ensures devices.Ok? && devices.value.Success() ==>
        var lines := DeviceLines(devices.value.stdout);
        var k := FirstConnectFrom(lines, old(deviceSerial), 0);
        r == Ok(k >= 0)
        && deviceSerial == (if k >= 0 && old(deviceSerial).None? then Some(Fields(lines[k])[0]) else old(deviceSerial))
      ensures adbPath == old(adbPath) && screenSize == old(screenSize)
      ensures recording == old(recording) && recordingPath == old(recordingPath)
    {
      if devices.Err? {
        return Err(devices.exn);
      }
      if !devices.value.Success() {
        return Ok(false);
      }
      var lines := DeviceLines(devices.value.stdout);
      var k := FindConnectLine(lines, deviceSerial);
      if k >= 0 {
        var parts := Fields(lines[k]);
        if deviceSerial.None? {
          deviceSerial := Some(parts[0]);
        }
        return Ok(true);
      }
      r := Ok(false);
    }

    /** `start_screen_record`: refuses while recording; otherwise launches
        the recorder (which may fail to spawn) and holds its state. */
    method StartScreenRecord(remotePath: string, maxDuration: int, spawned: bool)
      returns (r: Result<()>, cmd: seq<string>)
      modifies this
      ensures old(recording) ==>
        r == Fail("Recording already in progress") && cmd == [] && recording && recordingPath == old(recordingPath)
      ensures !old(recording) ==> cmd == BuildCommand(adbPath, deviceSerial,
        ["shell", "screenrecord --time-limit " + IntToString(maxDuration) + " " + remotePath])
      ensures !old(recording) && spawned ==> r == Ok(()) && recording && recordingPath == Some(remotePath)
      ensures !old(recording) && !spawned ==> r.Err? && r.exn.kind != AdbError && !recording && recordingPath == old(recordingPath)
      ensures adbPath == old(adbPath) && deviceSerial == old(deviceSerial) && screenSize == old(screenSize)
    {
      if recording {
        return Fail("Recording already in progress"), [];
      }
      cmd := Command(["shell", "screenrecord --time-limit " + IntToString(maxDuration) + " " + remotePath]);
      if !spawned {
        return Err(Exn(OtherErr, "could not start the recorder")), cmd;
      }
      recording := true;
      recordingPath := Some(remotePath);
      r := Ok(());
    }

    /** `stop_screen_record`: pull the file, then in any case remove it on
        the device and drop the recording state. If the remove itself
        raises, that exception wins and the state stays set. */
    method StopScreenRecord(pull: Outcome, read: Result<seq<bv8>>, rm: Outcome)
      returns (r: Result<seq<bv8>>, rmCommand: string)
      modifies this
      ensures r == StopScreenRecordResult(old(recording), pull, read, rm)
      ensures !old(recording) ==>
        && r == Fail("No recording in progress") && rmCommand == ""
        && !recording && recordingPath == old(recordingPath)
      ensures old(recording) ==> rmCommand == "rm " + PathText(old(recordingPath))
      ensures old(recording) && rm.Err? ==> r == Err(rm.exn) && recording && recordingPath == old(recordingPath)
      ensures old(recording) && rm.Ok? ==>
        !recording && recordingPath == None && r == (if pull.Err? then Err(pull.exn)
                 else if !pull.value.Success() then Fail("Failed to pull recording: " + pull.value.stderr)
                 else read)
      ensures adbPath == old(adbPath) && deviceSerial == old(deviceSerial) && screenSize == old(screenSize)
    {
      if !recording {
        return Fail("No recording in progress"), "";
      }
      var body: Result<seq<bv8>>;
      if pull.Err? {
        body := Err(pull.exn);
      } else if !pull.value.Success() {
        body := Fail("Failed to pull recording: " + pull.value.stderr);
      } else {
        body := read;
      }
      // the finally block
      rmCommand := "rm " + PathText(recordingPath);
      if rm.Err? {
        return Err(rm.exn), rmCommand;
      }
      recording := false;
      recordingPath := None;
      r := body;
    }
  }

  /** How an optional path prints in an f-string. */
  function PathText(p: Option<string>): string {
    if p.Some? then p.value else "None"
  }
}
