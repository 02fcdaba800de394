/** The observation tools: the shell-command safety gate, the package
    filter of `get_logcat` (process ids from `pidof` or `ps`, then the log
    lines of those processes), toast extraction from log lines and the
    foreground-package fallback.

    Shell commands and the logcat dump are oracles: `shell(cmd)` is what
    the adapter's `shell` returns or raises for that command, and
    `logcat(n)` what `get_logcat` returns for n requested lines with the
    caller's tag, level and since. */
module Observation {
  import opened Base
  import opened Strings
  import opened Adb

  // ---------------------------------------------------------------- safety gate

  /** BLOCKED_COMMANDS, in listing order. */
  const BlockedCommands: seq<string> :=
    ["rm -rf /", "rm -rf /*", "mkfs", "dd if=", "> /dev/", "chmod 777 /", ":(){ :|:& };:"]

  /** The first pattern, in the given order, that occurs in the command. */
  function FirstBlocked(command: string, patterns: seq<string>): (r: Option<string>)
    ensures r.Some? ==> r.value in patterns && Contains(r.value, command)
    ensures r.None? <==> forall i :: 0 <= i < |patterns| ==> !Contains(patterns[i], command)
  {
    if patterns == [] then None
    else if Contains(patterns[0], command) then Some(patterns[0])
    else
      var r := FirstBlocked(command, patterns[1..]);
      assert forall i :: 1 <= i < |patterns| ==> patterns[i] == patterns[1..][i - 1];
      r
  }

  /** `_is_command_safe`: a blocked pattern makes a command unsafe, and a
      non-empty allowlist admits only commands whose first whitespace
      token it lists. */
  function IsCommandSafe(command: string, allowlist: seq<string>): (r: (bool, string))
    ensures r.0 <==> (forall i :: 0 <= i < |BlockedCommands| ==> !Contains(BlockedCommands[i], command))
                     && (allowlist == [] || FirstToken(command) in allowlist)
    ensures r.0 ==> r.1 == ""
    ensures !r.0 ==> ((exists b :: b in BlockedCommands && Contains(b, command) && r.1 == "Blocked pattern detected: " + b)
                      || r.1 == "Command '" + FirstToken(command) + "' not in allowlist")
  {
    match FirstBlocked(command, BlockedCommands)
    case Some(b) => (false, "Blocked pattern detected: " + b)
    case None =>
      if allowlist != [] && FirstToken(command) !in allowlist then
        (false, "Command '" + FirstToken(command) + "' not in allowlist")
      else (true, "")
  }

  /** A blocked pattern wins over the allowlist. */
  lemma BlockedEvenIfAllowed(command: string, allowlist: seq<string>, k: nat)
    requires k < |BlockedCommands| && Contains(BlockedCommands[k], command)
    ensures !IsCommandSafe(command, allowlist).0
    ensures IsCommandSafe(command, allowlist).1 == "Blocked pattern detected: " + FirstBlocked(command, BlockedCommands).value
  {
  }

  /** "rm -rf /" is refused even when "rm" is allowlisted. */
  lemma RmRfRootBlocked()
    ensures IsCommandSafe("rm -rf /", ["rm"]) == (false, "Blocked pattern detected: rm -rf /")
  {
    ContainsSelf("rm -rf /");
    assert BlockedCommands[0] == "rm -rf /";
    assert FirstBlocked("rm -rf /", BlockedCommands) == Some("rm -rf /");
    assert "Blocked pattern detected: " + "rm -rf /" == "Blocked pattern detected: rm -rf /";
  }

  /** The gate decision for `execute_shell`. */
  datatype ShellReply =
    | ShellRefused(error: string)
    | ShellRan(success: bool, stdout: string, stderr: string, exitCode: int)

  /** `execute_shell`: the result, and whether the shell was called; `out`
      is what the shell gives for the command. Only ADBError is caught. */
  function ExecuteShell(command: string, allowed: bool, allowlist: seq<string>, out: Outcome): (r: (Result<ShellReply>, bool))
    ensures !allowed ==> r == (Ok(ShellRefused("Shell commands are disabled in configuration")), false)
    ensures allowed && !IsCommandSafe(command, allowlist).0 ==>
      r == (Ok(ShellRefused("Command blocked: " + IsCommandSafe(command, allowlist).1)), false)
    ensures r.1 <==> allowed && IsCommandSafe(command, allowlist).0
    ensures r.1 && out.Ok? ==> r.0 == Ok(ShellRan(out.value.exitCode == 0, out.value.stdout, out.value.stderr, out.value.exitCode))
    ensures r.1 && out.Err? ==> r.0 == if out.exn.kind == AdbError then Ok(ShellRefused(out.exn.msg)) else Err(out.exn)
  {
    if !allowed then (Ok(ShellRefused("Shell commands are disabled in configuration")), false)
    else
      var (safe, reason) := IsCommandSafe(command, allowlist);
      if !safe then (Ok(ShellRefused("Command blocked: " + reason)), false)
      else
        match out
        case Ok(res) => (Ok(ShellRan(res.Success(), res.stdout, res.stderr, res.exitCode)), true)
        case Err(e) => (if e.kind == AdbError then Ok(ShellRefused(e.msg)) else Err(e), true)
  }

  // ---------------------------------------------------------------- process ids

  /** `s.isdigit()` on ASCII text. */
  predicate IsDecimal(s: string) { s != [] && AllDigits(s) }

  /** The pid a `ps` line contributes: its second field, if all digits. */
  function PsPidOf(line: string): Option<string> {
    var parts := SplitWs(line);
    if |parts| >= 2 && IsDecimal(parts[1]) then Some(parts[1]) else None
  }

  function PsPids(lines: seq<string>): seq<string> {
    FilterMap(lines, PsPidOf)
  }

  /** The pids from `ps` are exactly the decimal second fields of its
      lines. */
  lemma PsPidsAreSecondFields(lines: seq<string>)
    ensures forall p :: p in PsPids(lines) <==>
      exists i :: 0 <= i < |lines| && |SplitWs(lines[i])| >= 2 && SplitWs(lines[i])[1] == p && IsDecimal(p)
  {
    FilterMapSpec(lines, PsPidOf);
  }

  method ParsePsPids(lines: seq<string>) returns (pids: seq<string>)
    ensures pids == PsPids(lines)
  {
    pids := [];
    var i := 0;
    while i < |lines|
      invariant 0 <= i <= |lines| && pids == FilterMap(lines[..i], PsPidOf)
    {
      FilterMapSnoc(lines, PsPidOf, i);
      var parts := SplitWs(lines[i]);
      if |parts| >= 2 && IsDecimal(parts[1]) {
        pids := pids + [parts[1]];
      }
      i := i + 1;
    }
    assert lines[..i] == lines;
  }

  /** The pids `get_logcat` filters on: the `pidof` tokens, or else the
      `ps` lines' pids; none without a package. An exception of either
      shell call propagates. */
  function PidLookup(package: string, shell: string -> Outcome): Result<seq<string>> {
    if package == "" then Ok([])
    else
      var r1 := shell("pidof " + package);
      if r1.Err? then Err(r1.exn)
      else
        var p1 := if r1.value.Success() && Strip(r1.value.stdout) != "" then SplitWs(Strip(r1.value.stdout)) else [];
        if p1 != [] then Ok(p1)
        else
          var r2 := shell("ps -A | grep " + package);
          if r2.Err? then Err(r2.exn)
          else if r2.value.Success() && Strip(r2.value.stdout) != "" then Ok(PsPids(SplitOn(Strip(r2.value.stdout), '\n')))
          else Ok([])
  }

  // ---------------------------------------------------------------- log line filter

  /** The pid `p` at position e, followed by whitespace. */
  predicate PidAt(line: string, p: string, e: nat) {
    OccursAt(p, line, e) && e + |p| < |line| && IsSpace(line[e + |p|])
  }

  /** `re.match(r"^\s*\S+\s+\S+\s+(p1|...|pn)\s+", line)`. A whitespace run
      and a non-whitespace run cannot give characters to each other, so the
      match is fixed: two fields, whitespace, then one of the pids followed
      by whitespace. */
  predicate PidLineMatch(line: string, pids: seq<string>) {
    var a := SpaceEnd(line, 0);
    var b := WordEnd(line, a);
    var c := SpaceEnd(line, b);
    var d := WordEnd(line, c);
    var e := SpaceEnd(line, d);
    a < b < c < d < e && exists k :: 0 <= k < |pids| && PidAt(line, pids[k], e)
  }

  /** `split()` from i, one field at a time: the field after the
      whitespace run is not empty, and whitespace follows it unless it ends
      the line. */
  lemma FieldStep(line: string, i: nat)
    requires i <= |line|
    ensures var a := SpaceEnd(line, i);
      var b := WordEnd(line, a);
      SplitWsFrom(line, i) == (if a == |line| then [] else [line[a..b]] + SplitWsFrom(line, b))
      && (a < |line| ==> a < b && (b < |line| ==> SpaceEnd(line, b) > b))
  {
    SplitWsAt(line, i);
    var a := SpaceEnd(line, i);
    if a < |line| {
      WordEndSpec(line, a);
    }
  }

  /** The first three fields of `split()`, by position. */
  lemma ThreeFields(line: string)
    ensures var a := SpaceEnd(line, 0);
      var b := WordEnd(line, a);
      var c := SpaceEnd(line, b);
      var d := WordEnd(line, c);
      var e := SpaceEnd(line, d);
      var f := WordEnd(line, e);
      (|SplitWs(line)| >= 3 <==> a < b < c < d < e < |line|)
      && (|SplitWs(line)| >= 3 ==> SplitWs(line)[2] == line[e..f] && e < f)
      && (|SplitWs(line)| >= 4 ==> f < |line|)
  {
    var a := SpaceEnd(line, 0);
    var b := WordEnd(line, a);
    var c := SpaceEnd(line, b);
    var d := WordEnd(line, c);
    var e := SpaceEnd(line, d);
    var f := WordEnd(line, e);
    FieldStep(line, 0);
    if a == |line| {
      return;
    }
    var t1 := SplitWsFrom(line, b);
    assert SplitWs(line) == [line[a..b]] + t1;
    FieldStep(line, b);
    if b == |line| || c == |line| {
      assert t1 == [];
      return;
    }
    var t2 := SplitWsFrom(line, d);
    assert t1 == [line[c..d]] + t2;
    FieldStep(line, d);
    if d == |line| || e == |line| {
      assert t2 == [];
      return;
    }
    var t3 := SplitWsFrom(line, f);
    assert t2 == [line[e..f]] + t3;
    assert SplitWs(line)[2] == line[e..f];
    if f == |line| {
      assert t3 == [];
    }
  }

  /** A matching line has one of the pids as its third field. */
  lemma MatchThirdField(line: string, pids: seq<string>)
    requires forall k :: 0 <= k < |pids| ==> IsToken(pids[k])
    requires PidLineMatch(line, pids)
    ensures |SplitWs(line)| >= 3 && SplitWs(line)[2] in pids
  {
    ThreeFields(line);
    var a := SpaceEnd(line, 0);
    var b := WordEnd(line, a);
    var c := SpaceEnd(line, b);
    var d := WordEnd(line, c);
    var e := SpaceEnd(line, d);
    var k :| 0 <= k < |pids| && PidAt(line, pids[k], e);
    var p := pids[k];
    assert IsToken(p);
    forall j | e <= j < e + |p| ensures !IsSpace(line[j]) {
      assert line[j] == p[j - e];
    }
    WordEndBefore(line, e, e + |p|);
    assert line[e..WordEnd(line, e)] == p;
  }

  /** A line of at least four fields whose third field is a pid matches. */
  lemma ThirdFieldMatches(line: string, pids: seq<string>)
    requires |SplitWs(line)| >= 4 && SplitWs(line)[2] in pids
    ensures PidLineMatch(line, pids)
  {
    ThreeFields(line);
    var a := SpaceEnd(line, 0);
    var b := WordEnd(line, a);
    var c := SpaceEnd(line, b);
    var d := WordEnd(line, c);
    var e := SpaceEnd(line, d);
    var f := WordEnd(line, e);
    var k :| 0 <= k < |pids| && pids[k] == line[e..f];
    WordEndSpec(line, e);
    assert PidAt(line, pids[k], e);
  }

  /** Both directions: the regex match is the third field being a pid. */
  lemma PidLineThirdField(line: string, pids: seq<string>)
    requires forall k :: 0 <= k < |pids| ==> IsToken(pids[k])
    ensures PidLineMatch(line, pids) ==> |SplitWs(line)| >= 3 && SplitWs(line)[2] in pids
    ensures |SplitWs(line)| >= 4 && SplitWs(line)[2] in pids ==> PidLineMatch(line, pids)
  {
    if PidLineMatch(line, pids) {
      MatchThirdField(line, pids);
    }
    if |SplitWs(line)| >= 4 && SplitWs(line)[2] in pids {
      ThirdFieldMatches(line, pids);
    }
  }

  /** Keep a line when it matches. */
  function PidKeep(pids: seq<string>): string -> Option<string> {
    line => if PidLineMatch(line, pids) then Some(line) else None
  }

  /** The log lines of the processes, in order. */
  function PidLines(lines: seq<string>, pids: seq<string>): seq<string> {
    FilterMap(lines, PidKeep(pids))
  }

  /** The kept lines are exactly the matching ones. */
  lemma PidLinesAreMatches(lines: seq<string>, pids: seq<string>)
    ensures forall l :: l in PidLines(lines, pids) <==> l in lines && PidLineMatch(l, pids)
  {
    FilterMapSpec(lines, PidKeep(pids));
  }

  method FilterPidLines(lines: seq<string>, pids: seq<string>) returns (kept: seq<string>)
    ensures kept == PidLines(lines, pids)
  {
    kept := [];
    var i := 0;
    while i < |lines|
      invariant 0 <= i <= |lines| && kept == FilterMap(lines[..i], PidKeep(pids))
    {
      FilterMapSnoc(lines, PidKeep(pids), i);
      var keep := PidKeep(pids)(lines[i]);
      if keep.Some? {
        kept := kept + [keep.value];
      }
      i := i + 1;
    }
    assert lines[..i] == lines;
  }

  /** `xs[-n:]` with Python's slice rules: the last n items for n >= 1,
      all of them for n == 0 (since -0 == 0). */
  function PyTail<T>(xs: seq<T>, n: int): (r: seq<T>)
    ensures n >= 1 ==> |r| == Min(n, |xs|) && r == xs[|xs| - |r|..]
    ensures n == 0 ==> r == xs
  {
    var start := -n;
    xs[if start < 0 then Max(|xs| + start, 0) else Min(start, |xs|)..]
  }

  function NoLogsMessage(package: string, pids: seq<string>): string {
    "No logs found for package '" + package + "' (PIDs: " + Join(pids, ", ")
    + "). The app may not have generated any logs recently."
  }

  /** The text `get_logcat` returns for a dump, given the package's pids. */
  function FilteredOutput(out: string, pids: seq<string>, lines: int, package: string): string {
    var text := Join(PyTail(PidLines(SplitOn(out, '\n'), pids), lines), "\n");
    if Strip(text) == "" then NoLogsMessage(package, pids) else text
  }

  /** ADBError becomes the error text; other exceptions propagate. */
  function LogcatError(e: Exn): Result<string> {
    if e.kind == AdbError then Ok("Error getting logcat: " + e.msg) else Err(e)
  }

  /** The reference for the `get_logcat` tool: its result, and how many
      lines it asked the dump for (None if it never got that far). */
  function LogcatTool(lines: int, package: string, shell: string -> Outcome, logcat: int -> Result<string>)
    : (Result<string>, Option<int>)
  {
    match PidLookup(package, shell)
    case Err(e) => (LogcatError(e), None)
    case Ok(pids) =>
      var n := if pids != [] then lines * 2 else lines;
      match logcat(n)
      case Err(e) => (LogcatError(e), Some(n))
      case Ok(out) => (Ok(if pids == [] then out else FilteredOutput(out, pids, lines, package)), Some(n))
  }

  /** With pids, the dump is asked for twice the lines, and the last at
      most `lines` of its matching lines come back. */
  lemma FilteredKeepsLast(out: string, pids: seq<string>, lines: int)
    requires lines >= 1
    ensures var all := PidLines(SplitOn(out, '\n'), pids);
      var kept := PyTail(all, lines);
      |kept| == Min(lines, |all|) && all[|all| - |kept|..] == kept
      && forall l :: l in kept ==> l in SplitOn(out, '\n') && PidLineMatch(l, pids)
  {
    PidLinesAreMatches(SplitOn(out, '\n'), pids);
  }

  method GetLogcat(lines: int, package: string, shell: string -> Outcome, logcat: int -> Result<string>)
    returns (r: Result<string>, requested: Option<int>)
    ensures (r, requested) == LogcatTool(lines, package, shell, logcat)
  {
    var pids: seq<string> := [];
    if package != "" {
      var r1 := shell("pidof " + package);
      if r1.Err? {
        return LogcatError(r1.exn), None;
      }
      if r1.value.Success() && Strip(r1.value.stdout) != "" {
        pids := SplitWs(Strip(r1.value.stdout));
      }
      if pids == [] {
        var r2 := shell("ps -A | grep " + package);
        if r2.Err? {
          return LogcatError(r2.exn), None;
        }
        if r2.value.Success() && Strip(r2.value.stdout) != "" {
          pids := ParsePsPids(SplitOn(Strip(r2.value.stdout), '\n'));
        }
      }
    }
    assert PidLookup(package, shell) == Ok(pids);
    var n := if pids != [] then lines * 2 else lines;
    requested := Some(n);
    var output := logcat(n);
    if output.Err? {
      return LogcatError(output.exn), requested;
    }
    var text := output.value;
    if pids != [] {
      var kept := FilterPidLines(SplitOn(text, '\n'), pids);
      text := Join(PyTail(kept, lines), "\n");
      if Strip(text) == "" {
        return Ok(NoLogsMessage(package, pids)), requested;
      }
    }
    r := Ok(text);
  }

  // ---------------------------------------------------------------- toasts

  /** The toast text of a log line: what follows its first ':', stripped,
      when that is not empty. */
  function ToastOf(line: string): (r: Option<string>)
    ensures r.Some? ==> Contains(":", line) && r.value != "" && r.value == Strip(line[Find(line, ":") + 1..])
    ensures r.None? ==> !Contains(":", line) || Strip(line[Find(line, ":") + 1..]) == ""
  {
    if Contains(":", line) then
      var m := Strip(line[Find(line, ":") + 1..]);
      if m != "" then Some(m) else None
    else None
  }

  function Toasts(lines: seq<string>): seq<string> {
    FilterMap(lines, ToastOf)
  }

  /** Every toast message is the non-empty text after some line's first
      colon, and every line with such a text contributes it. */
  lemma ToastsFromLines(lines: seq<string>)
    ensures forall m :: m in Toasts(lines) ==> m != "" && exists i :: 0 <= i < |lines| && ToastOf(lines[i]) == Some(m)
    ensures forall i :: 0 <= i < |lines| && ToastOf(lines[i]).Some? ==> ToastOf(lines[i]).value in Toasts(lines)
  {
    FilterMapSpec(lines, ToastOf);
  }

  datatype ToastReply =
    | ToastsFound(found: bool, count: nat, messages: seq<string>)
    | ToastError(error: string)

  method CollectToasts(lines: seq<string>) returns (messages: seq<string>)
    ensures messages == Toasts(lines)
  {
    messages := [];
    var i := 0;
    while i < |lines|
      invariant 0 <= i <= |lines| && messages == FilterMap(lines[..i], ToastOf)
    {
      FilterMapSnoc(lines, ToastOf, i);
      var toast := ToastOf(lines[i]);
      if toast.Some? {
        messages := messages + [toast.value];
      }
      i := i + 1;
    }
    assert lines[..i] == lines;
  }

  /** `get_toast_messages` on the outcome of its logcat/grep pipeline;
      every exception becomes an error reply. */
  method GetToastMessages(out: Outcome) returns (r: ToastReply)
    ensures out.Err? ==> r == ToastError(out.exn.msg)
    ensures out.Ok? ==> r.ToastsFound? && r.found == (r.count > 0) && r.count == |r.messages|
    ensures out.Ok? ==> (r.messages ==
      if out.value.Success() && Strip(out.value.stdout) != "" then Toasts(SplitOn(Strip(out.value.stdout), '\n')) else [])
  {
    if out.Err? {
      return ToastError(out.exn.msg);
    }
    var messages: seq<string> := [];
    if out.value.Success() && Strip(out.value.stdout) != "" {
      messages := CollectToasts(SplitOn(Strip(out.value.stdout), '\n'));
    }
    r := ToastsFound(|messages| > 0, |messages|, messages);
  }

  // ---------------------------------------------------------------- foreground package

  /** `get_foreground_package`: "unknown" on ADBError; other exceptions
      propagate. */
  function ForegroundPackage(current: Result<string>): (r: Result<string>)
    ensures current.Ok? ==> r == current
    ensures current.Err? && current.exn.kind == AdbError ==> r == Ok("unknown")
    ensures current.Err? && current.exn.kind != AdbError ==> r == current
  {
    if current.Err? && current.exn.kind == AdbError then Ok("unknown") else current
  }
}
