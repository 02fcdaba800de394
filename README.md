# Android device MCP server: a verified model of its core

The Android device server exposes an Android phone or emulator as a set of
tools: look at the screen (UI hierarchy, element bounds, element search),
act on it (tap, scroll, type, swipe along a path, tap several elements in
turn), observe it (guarded shell commands, logcat, toast messages, the
foreground package), and remember what worked (a learning store of element
selectors whose confidence rises and falls with every logged interaction).

The model follows the program's layers:

- `Adb` (adapters/adb.py): the `adb` command builder and the adapter's
  state (serial, cached screen size, recording flag and path); the key-code
  table, the text escaping of `input text`, package-name validation, and
  the parsers of `wm size`, `adb devices`, `pm list packages` and
  `dumpsys package`.
- `UiAutomator` (adapters/uiautomator.py): `Element` and its derived
  values, bounds and attribute parsing, the lazy uiautomator2 connection,
  the native-then-XML element search, the bounds view and the
  `wait_for_element` polling loop.
- `Persistence` (persistence/learning_store.py): the learning store as a
  class over a pattern table (a map keyed by package and pattern key) and
  an interaction log; upsert, the confidence rules, newest-first listing,
  per-action statistics and decay.
- `Visual`, `Interaction`, `Observation`, `LearningTools` (tools/*.py): the
  tools built on the adapters, and `Utils` (utils.py): retry with backoff,
  error formatting and nested dictionary lookup.
- `Base` and `Strings`: results, exceptions, JSON-like values, and the
  Python string operations the source uses (`split`, `strip`, `in`,
  `replace`, `int`, `str`).

Everything outside the process is a parameter. A shell command's outcome
is a function from the command text to `Result<CommandResult>`. The
uiautomator2 library (connect, dump, find, wait) and the XML parser are
fields of a `World` record. One `World` is one screen state; a loop that
observes the screen again takes a sequence of worlds. Timestamps are
integers.

## Model

| member | source | states |
|---|---|---|
| Adb.BuildCommand | mcp-servers/android-device/src/android_device_mcp/adapters/adb.py:110-116 | the adb path comes first, then `-s serial` exactly when a serial is set, then the arguments unchanged |
| Adb.BuildCommandSerialFlag | mcp-servers/android-device/src/android_device_mcp/adapters/adb.py:110-116 | the command holds `-s` if and only if a serial is set |
| Adb.NormalizeKey | mcp-servers/android-device/src/android_device_mcp/adapters/adb.py:393 | a normalised key name contains no space |
| Adb.NormalizeKeyCharwise | mcp-servers/android-device/src/android_device_mcp/adapters/adb.py:393 | normalising keeps the length; each blank becomes `_` and every other character is lower-cased |
| Adb.NormalizeLowerWord | mcp-servers/android-device/src/android_device_mcp/adapters/adb.py:393 | a lower-case name without blanks is its own normal form |
| Adb.KeyCodeOf | mcp-servers/android-device/src/android_device_mcp/adapters/adb.py:390-399 | an integer key is its own code; a name is found exactly when its normal form is in the table, and then has the table's code; otherwise the ADBError "Unknown key: ..." listing the valid keys |
| Adb.KnownKeyName | mcp-servers/android-device/src/android_device_mcp/adapters/adb.py:45-67 | every name in the key table maps to its code |
| Adb.UnknownKeyRaises | mcp-servers/android-device/src/android_device_mcp/adapters/adb.py:396-397 | a name absent from the table raises |
| Adb.PressKeyCommand | mcp-servers/android-device/src/android_device_mcp/adapters/adb.py:390-401 | the command exists exactly when the key resolves, and is `input keyevent` followed by its decimal code |
| Adb.PackageRegexAcceptsTrailingNewline | mcp-servers/android-device/src/android_device_mcp/adapters/adb.py:605 | like Python's `$`, the validation also accepts a name followed by one newline, such as `a\n` |
| Adb.AcceptedPackageIsOneWord | mcp-servers/android-device/src/android_device_mcp/adapters/adb.py:602-614 | an accepted name adds exactly one shell word to the command, made of package characters only, so no blank or metacharacter gets through |
| Adb.PackageCommand | mcp-servers/android-device/src/android_device_mcp/adapters/adb.py:602-614 | the command is built exactly when the pattern accepts the package; otherwise the ADBError "Invalid package name format: ..." |
| Adb.StopAppCommand | mcp-servers/android-device/src/android_device_mcp/adapters/adb.py:602-607 | `am force-stop <pkg>` exactly for accepted names |
| Adb.ClearAppDataCommand | mcp-servers/android-device/src/android_device_mcp/adapters/adb.py:609-614 | `pm clear <pkg>` exactly for accepted names |
| Adb.StopAppAccepts | mcp-servers/android-device/src/android_device_mcp/adapters/adb.py:602-607 | a dotted package name is accepted and produces its force-stop command |
| Adb.StopAppRefuses | mcp-servers/android-device/src/android_device_mcp/adapters/adb.py:602-607 | a name carrying `;` and a command is refused |
| Adb.EscapeRulesSafe | mcp-servers/android-device/src/android_device_mcp/adapters/adb.py:375-385 | no later replacement rewrites what an earlier one produced, so the chain of replacements escapes each character once |
| Adb.EscapeRulesChar | mcp-servers/android-device/src/android_device_mcp/adapters/adb.py:375-385 | each special character is replaced by its escape |
| Adb.EscapeRuleless | mcp-servers/android-device/src/android_device_mcp/adapters/adb.py:375-385 | any other character is left alone |
| Adb.EscapeTextIsCharwise | mcp-servers/android-device/src/android_device_mcp/adapters/adb.py:375-385 | the eleven chained replacements equal escaping character by character |
| Adb.EscapeCharsNoSpace | mcp-servers/android-device/src/android_device_mcp/adapters/adb.py:379 | escaped text contains no blank |
| Adb.EscapeCharsGuarded | mcp-servers/android-device/src/android_device_mcp/adapters/adb.py:375-385 | every shell-special character of the escaped text is preceded by a backslash |
| Adb.TypeTextProperties | mcp-servers/android-device/src/android_device_mcp/adapters/adb.py:373-388 | the text placed inside `input text '...'` has no blank and no unguarded special character |
| Adb.SearchSizeLeftmost | mcp-servers/android-device/src/android_device_mcp/adapters/adb.py:251-253 | the size search finds nothing exactly when no position starts `<digits>x<digits>`, and otherwise reads the leftmost one |
| Adb.ParseScreenSizePrinted | mcp-servers/android-device/src/android_device_mcp/adapters/adb.py:251-256 | for any text without digits before it, a printed `WxH` reads back as (W, H) |
| Adb.ScreenSizeDigits | mcp-servers/android-device/src/android_device_mcp/adapters/adb.py:251-256 | digit strings W and H around an `x` read back as their values |
| Adb.ScreenSizeExample | mcp-servers/android-device/src/android_device_mcp/adapters/adb.py:244-264 | `Physical size: 1080x2340` gives 1080 by 2340 |
| Adb.ScreenSizeFromShell | mcp-servers/android-device/src/android_device_mcp/adapters/adb.py:244-264 | a size is read exactly when the command succeeded and its output holds `<digits>x<digits>`, and it is the leftmost such pair; a failed command is the ADBError "Failed to get screen size"; an exception propagates and every other failure is an ADBError |
| Adb.FirstConnectFrom | mcp-servers/android-device/src/android_device_mcp/adapters/adb.py:213-222 | the index of the first line that shows the wanted device as connected, or -1 when no line does |
| Adb.FindConnectLine | mcp-servers/android-device/src/android_device_mcp/adapters/adb.py:213-222 | the loop finds that first connected line |
| Adb.SerialFromDevices | mcp-servers/android-device/src/android_device_mcp/adapters/adb.py:230-242 | an exception of `adb devices` propagates and a failed run is the ADBError "Failed to list devices"; a serial is returned exactly when some line is ready, and it is the first field of the first ready line; otherwise the ADBError "No connected devices found" |
| Adb.SerialIsFirstReady | mcp-servers/android-device/src/android_device_mcp/adapters/adb.py:230-242 | after a successful listing, a serial is found exactly when some line is ready, and it is the first field of the first ready line |
| Adb.PackagesInIff | mcp-servers/android-device/src/android_device_mcp/adapters/adb.py:626-636 | a package is listed exactly when some `package:` line, after the filter, names it |
| Adb.CollectPackages | mcp-servers/android-device/src/android_device_mcp/adapters/adb.py:626-636 | the loop yields the listed packages in output order |
| Adb.ListPackages | mcp-servers/android-device/src/android_device_mcp/adapters/adb.py:616-638 | an exception propagates, a failed command gives no packages, and otherwise the listed packages come back sorted |
| Adb.PermissionsNeedHeader | mcp-servers/android-device/src/android_device_mcp/adapters/adb.py:660-673 | no permission is read before a permissions header |
| Adb.PermissionsAreLines | mcp-servers/android-device/src/android_device_mcp/adapters/adb.py:660-673 | every permission read is a stripped output line starting `android.permission.` |
| Adb.ParsePermissions | mcp-servers/android-device/src/android_device_mcp/adapters/adb.py:660-673 | the loop reads exactly the permissions of the reference definition |
| Adb.VersionNameFrom | mcp-servers/android-device/src/android_device_mcp/adapters/adb.py:652-655 | a version name read is non-empty and has no blank |
| Adb.VersionNamePrinted | mcp-servers/android-device/src/android_device_mcp/adapters/adb.py:652-655 | after key-free text, `versionName=` followed by a blank-free name and then a blank or the end reads back as that name |
| Adb.VersionCodePrinted | mcp-servers/android-device/src/android_device_mcp/adapters/adb.py:656-658 | the first `versionCode=<n>` reads back as n |
| Adb.GetAppInfo | mcp-servers/android-device/src/android_device_mcp/adapters/adb.py:640-675 | the shell is asked only for an accepted name; a failed dump is "Failed to get app info"; otherwise the package, version name, version code and permissions read from the dump |
| Adb.LogcatCommands | mcp-servers/android-device/src/android_device_mcp/adapters/adb.py:455-491 | a clear adds `logcat -c` first; the dump command is the last one |
| Adb.LogcatDumpText | mcp-servers/android-device/src/android_device_mcp/adapters/adb.py:475-490 | the dump command is `logcat -d -t <lines>`, then ` -T '<since>'` when given, then the filter: `<tag>:<level> *:S`, `<tag>:V *:S` or `*:<level>`; a clear puts `logcat -c` before it |
| Adb.LogcatCommandShape | mcp-servers/android-device/src/android_device_mcp/adapters/adb.py:468-487 | the dump starts `logcat -d -t <lines>`, and with a tag it ends with the silence-everything-else filter ` *:S` |
| Adb.AdbAdapter.constructor | mcp-servers/android-device/src/android_device_mcp/adapters/adb.py:69-80 | the adapter starts with the given serial and path, no cached size and no recording |
| Adb.AdbAdapter.GetScreenSize | mcp-servers/android-device/src/android_device_mcp/adapters/adb.py:244-264 | a cached size is returned without a command; otherwise the parsed size is returned and cached, and a failure caches nothing |
| Adb.AdbAdapter.GetDeviceSerial | mcp-servers/android-device/src/android_device_mcp/adapters/adb.py:226-242 | a set serial is returned as is; otherwise the first ready device of `adb devices` becomes the serial |
| Adb.AdbAdapter.CheckConnection | mcp-servers/android-device/src/android_device_mcp/adapters/adb.py:208-224 | connected exactly when some line shows the device; without a serial the first such device is adopted |
| Adb.AdbAdapter.StartScreenRecord | mcp-servers/android-device/src/android_device_mcp/adapters/adb.py:403-419 | refused while recording; otherwise `screenrecord --time-limit` is spawned and the flag and path are set only when it started |
| Adb.AdbAdapter.StopScreenRecord | mcp-servers/android-device/src/android_device_mcp/adapters/adb.py:421-453 | the result is the one `stop_screen_record` hands back (refusal without a recording, else the remove's exception, else the pull's error or the file read); a refusal changes nothing; the state is cleared exactly when the remove did not raise, even when the pull fails |
| UiAutomator.Element.Center | mcp-servers/android-device/src/android_device_mcp/adapters/uiautomator.py:36-41 | the centre is the floor of the midpoint of each pair of edges |
| UiAutomator.Element.ToDict | mcp-servers/android-device/src/android_device_mcp/adapters/uiautomator.py:49-69 | the dict carries the centre, width and height derived from the bounds |
| UiAutomator.CenterInside | mcp-servers/android-device/src/android_device_mcp/adapters/uiautomator.py:36-47 | for well-formed bounds the centre lies inside them and width and height are not negative |
| UiAutomator.ParseBounds | mcp-servers/android-device/src/android_device_mcp/adapters/uiautomator.py:147-153 | text that is not `[l,t][r,b]` gives (0,0,0,0); all four values are non-negative |
| UiAutomator.ParseBoundsPrinted | mcp-servers/android-device/src/android_device_mcp/adapters/uiautomator.py:147-153 | printed bounds read back as themselves |
| UiAutomator.DefaultBoundsZero | mcp-servers/android-device/src/android_device_mcp/adapters/uiautomator.py:163 | the default attribute `[0,0][0,0]` reads as zero bounds |
| UiAutomator.PyInt | mcp-servers/android-device/src/android_device_mcp/adapters/uiautomator.py:172 | Python's `int` on text: a failure is a ValueError |
| UiAutomator.PyIntDigits | mcp-servers/android-device/src/android_device_mcp/adapters/uiautomator.py:172 | a digit string converts to its value |
| UiAutomator.PyIntMinusDigits | mcp-servers/android-device/src/android_device_mcp/adapters/uiautomator.py:172 | a minus sign before digits negates the value |
| UiAutomator.PyIntPrinted | mcp-servers/android-device/src/android_device_mcp/adapters/uiautomator.py:172 | every printed integer converts back to itself |
| UiAutomator.ParseElement | mcp-servers/android-device/src/android_device_mcp/adapters/uiautomator.py:155-173 | parsing fails exactly when the `index` attribute is not an integer, with that ValueError |
| UiAutomator.ParseElementDefaults | mcp-servers/android-device/src/android_device_mcp/adapters/uiautomator.py:155-173 | enabled unless the attribute says otherwise; clickable, checkable, checked and the other flags only when the attribute is `true` |
| UiAutomator.ParseElementNoIndex | mcp-servers/android-device/src/android_device_mcp/adapters/uiautomator.py:172 | a node without `index` parses with index 0 |
| UiAutomator.SelectedSpec | mcp-servers/android-device/src/android_device_mcp/adapters/uiautomator.py:312-327 | the XML search keeps, in document order, exactly the nodes the selector matches |
| UiAutomator.SelectedNone | mcp-servers/android-device/src/android_device_mcp/adapters/uiautomator.py:326 | an empty selector matches no node |
| UiAutomator.Kwargs | mcp-servers/android-device/src/android_device_mcp/adapters/uiautomator.py:243-251 | the native selector arguments are empty exactly when no selector field is set |
| UiAutomator.SearchPath | mcp-servers/android-device/src/android_device_mcp/adapters/uiautomator.py:301-305 | an absolute XPath gets a leading `.`, so the search path is relative and ends with the given path |
| UiAutomator.Connect | mcp-servers/android-device/src/android_device_mcp/adapters/uiautomator.py:94-119 | an existing connection is kept; otherwise one is made exactly when uiautomator2 is enabled and connecting succeeds, and it is the connection made |
| UiAutomator.ConnectIdempotent | mcp-servers/android-device/src/android_device_mcp/adapters/uiautomator.py:94-119 | connecting twice is connecting once |
| UiAutomator.DumpFromShell | mcp-servers/android-device/src/android_device_mcp/adapters/uiautomator.py:133-145 | the XML is returned exactly when the command succeeded and its output holds `<?xml` or `<hierarchy`; it is the output cut at `<?xml`, or at `<hierarchy` when there is no declaration; an exception propagates and every other failure is an ADBError |
| UiAutomator.XmlStart | mcp-servers/android-device/src/android_device_mcp/adapters/uiautomator.py:138-143 | the cut is at the first `<?xml`, else at the first `<hierarchy`, else there is none |
| UiAutomator.DumpCutAtDeclaration | mcp-servers/android-device/src/android_device_mcp/adapters/uiautomator.py:138-143 | noise without a declaration before the XML is dropped |
| UiAutomator.FindSpecLimit | mcp-servers/android-device/src/android_device_mcp/adapters/uiautomator.py:226-331 | a search returns at most max(limit, 1) elements |
| UiAutomator.XmlSearchInOrder | mcp-servers/android-device/src/android_device_mcp/adapters/uiautomator.py:312-329 | every element returned by the XML search is the parse of a matching node, in document order |
| UiAutomator.SearchInOrder | mcp-servers/android-device/src/android_device_mcp/adapters/uiautomator.py:312-329 | the same for any node parser |
| UiAutomator.EmptySelectorFindsNothing | mcp-servers/android-device/src/android_device_mcp/adapters/uiautomator.py:253-254 | with no selector and no XPath both the native and the XML search find nothing |
| UiAutomator.NativeChoice | mcp-servers/android-device/src/android_device_mcp/adapters/uiautomator.py:237-290 | with an XPath or without a device the XML search runs; a failing native search falls back to it |
| UiAutomator.FirstOf | mcp-servers/android-device/src/android_device_mcp/adapters/uiautomator.py:207-224 | `find_element` is the first result of a one-element search, None when there is none |
| UiAutomator.BoundsViewIff | mcp-servers/android-device/src/android_device_mcp/adapters/uiautomator.py:188-205 | an entry is in the bounds view exactly when some element of positive size gives it; the kept boxes are not empty |
| UiAutomator.PollCountIff | mcp-servers/android-device/src/android_device_mcp/adapters/uiautomator.py:498-505 | attempt a is made exactly when a·poll is below the timeout |
| UiAutomator.ElapsedIff | mcp-servers/android-device/src/android_device_mcp/adapters/uiautomator.py:498-505 | the elapsed time after a attempts is a·poll, and the loop goes on exactly while it is below the timeout |
| UiAutomator.PollingNeverEnds | mcp-servers/android-device/src/android_device_mcp/adapters/uiautomator.py:499-505 | as written, with a non-positive interval and a positive timeout the loop test passes before every attempt |
| UiAutomator.WaitInterval | mcp-servers/android-device/src/android_device_mcp/adapters/uiautomator.py:499-505 | the interval waited is positive, and is the given one whenever that is positive |
| UiAutomator.WaitIntervalEnds | mcp-servers/android-device/src/android_device_mcp/adapters/uiautomator.py:499-505 | with the raised interval the loop test holds exactly for the first PollCount attempts and fails after them, for every interval asked for |
| UiAutomator.Polling.Run | mcp-servers/android-device/src/android_device_mcp/adapters/uiautomator.py:498-507 | the polling loop stops within its attempt budget |
| UiAutomator.PollFirstHit | mcp-servers/android-device/src/android_device_mcp/adapters/uiautomator.py:498-507 | the loop returns the first attempt that found something or failed; None means every attempt found nothing |
| UiAutomator.WaitPollingDrives | mcp-servers/android-device/src/android_device_mcp/adapters/uiautomator.py:448-507 | the polling run's connection chain is the adapter's |
| UiAutomator.SearchFromAtMost | mcp-servers/android-device/src/android_device_mcp/adapters/uiautomator.py:328-329 | the search stops after m results |
| UiAutomator.SearchFromNone | mcp-servers/android-device/src/android_device_mcp/adapters/uiautomator.py:326 | an empty selector yields nothing |
| UiAutomator.SearchFromPicked | mcp-servers/android-device/src/android_device_mcp/adapters/uiautomator.py:312-329 | the search is the first m parsed matches, stopping at the first parse error |
| UiAutomator.TextTest | mcp-servers/android-device/src/android_device_mcp/adapters/uiautomator.py:315-318 | the equality-then-substring text test is the substring test alone |
| UiAutomator.MatchNodes | mcp-servers/android-device/src/android_device_mcp/adapters/uiautomator.py:312-329 | the loop over the nodes computes the reference search |
| UiAutomator.CollectAll | mcp-servers/android-device/src/android_device_mcp/adapters/uiautomator.py:175-186 | the loop gathers all elements, or the first parse error |
| UiAutomator.CollectUpTo | mcp-servers/android-device/src/android_device_mcp/adapters/uiautomator.py:257-282 | the append-then-check loop returns the values of the first max(limit, 1) items, or the first error among them: `Collect(Take(items, Max(limit, 1)))` |
| UiAutomator.UiAutomatorAdapter.constructor | mcp-servers/android-device/src/android_device_mcp/adapters/uiautomator.py:82-92 | no connection yet |
| UiAutomator.UiAutomatorAdapter.GetU2Device | mcp-servers/android-device/src/android_device_mcp/adapters/uiautomator.py:94-119 | the connection is made once and remembered; availability is recorded on every attempt made while unconnected |
| UiAutomator.UiAutomatorAdapter.GetHierarchyXml | mcp-servers/android-device/src/android_device_mcp/adapters/uiautomator.py:121-145 | the native dump when connected and it works, else the shell dump cut at the XML |
| UiAutomator.UiAutomatorAdapter.GetAllElements | mcp-servers/android-device/src/android_device_mcp/adapters/uiautomator.py:175-186 | the elements are those of every `node` of the parsed hierarchy, in document order; a dump or parse failure is passed on |
| UiAutomator.UiAutomatorAdapter.GetBoundsOnly | mcp-servers/android-device/src/android_device_mcp/adapters/uiautomator.py:188-205 | the result is the bounds view of exactly the elements `get_all_elements` lists, in order, or its failure; every box returned is non-empty |
| UiAutomator.UiAutomatorAdapter.FindElements | mcp-servers/android-device/src/android_device_mcp/adapters/uiautomator.py:226-331 | the result is the reference search on the current connection |
| UiAutomator.UiAutomatorAdapter.FindElement | mcp-servers/android-device/src/android_device_mcp/adapters/uiautomator.py:207-224 | the first result of a one-element search |
| UiAutomator.UiAutomatorAdapter.WaitForElement | mcp-servers/android-device/src/android_device_mcp/adapters/uiautomator.py:448-507 | a native wait that succeeds answers at once; otherwise the polling loop runs over successive screens, within the timeout's attempt budget for the interval `WaitInterval(poll)` |
| UiAutomator.UiAutomatorAdapter.Poll | mcp-servers/android-device/src/android_device_mcp/adapters/uiautomator.py:498-507 | the loop is the reference run |
| UiAutomator.UiAutomatorAdapter.PollOnce | mcp-servers/android-device/src/android_device_mcp/adapters/uiautomator.py:499-503 | one attempt is the reference attempt on its screen |
| Persistence.Upsert | mcp-servers/android-device/src/android_device_mcp/persistence/learning_store.py:96-179 | saving adds or replaces one row; a new row starts at confidence 1.0 with zero counts, and an existing row keeps its counts, confidence and creation time |
| Persistence.Bump | mcp-servers/android-device/src/android_device_mcp/persistence/learning_store.py:366-388 | a success adds one success and 0.01 confidence, or sets 1.0 when that would pass 1.0; a failure adds one failure and takes 0.05, or sets 0.1 when that would fall below 0.1; nothing else changes; confidence stays in [0.1, 1] and moves the right way |
| Persistence.Touched | mcp-servers/android-device/src/android_device_mcp/persistence/learning_store.py:362-390 | only the pattern named by the selector changes, and only when it exists |
| Persistence.DecayRow | mcp-servers/android-device/src/android_device_mcp/persistence/learning_store.py:468-474 | a stale row's confidence becomes 0.9 times itself, or 0.1 when that would fall below 0.1; a fresh row is unchanged; nothing but the confidence changes |
| Persistence.DecayStep | mcp-servers/android-device/src/android_device_mcp/persistence/learning_store.py:468-478 | decaying one more row keeps the loop invariant |
| Persistence.DecayDone | mcp-servers/android-device/src/android_device_mcp/persistence/learning_store.py:468-478 | after all rows, the table is the decayed table and the count is the number of stale rows |
| Persistence.StepInRange | mcp-servers/android-device/src/android_device_mcp/persistence/learning_store.py:96-481 | every store operation keeps all confidences in [0.1, 1] |
| Persistence.ReplayInRange | mcp-servers/android-device/src/android_device_mcp/persistence/learning_store.py:96-481 | so does any sequence of them |
| Persistence.SaveTwiceOneRow | mcp-servers/android-device/src/android_device_mcp/persistence/learning_store.py:113-170 | saving a key twice leaves one row, holding the second data and the first creation time |
| Persistence.NewestExists | mcp-servers/android-device/src/android_device_mcp/persistence/learning_store.py:258 | a non-empty set of rows has a most recently updated one |
| Persistence.Summaries | mcp-servers/android-device/src/android_device_mcp/persistence/learning_store.py:276-287 | one summary per listed key |
| Persistence.TallyIsGrouped | mcp-servers/android-device/src/android_device_mcp/persistence/learning_store.py:418-445 | an action is reported exactly when it has log entries for the app since the cutoff, with their count and successes |
| Persistence.SuccessesAtMost | mcp-servers/android-device/src/android_device_mcp/persistence/learning_store.py:433-440 | successes never exceed attempts |
| Persistence.LearningStore.constructor | mcp-servers/android-device/src/android_device_mcp/persistence/learning_store.py:66-90 | an empty store, enabled exactly when the database opened |
| Persistence.LearningStore.SavePattern | mcp-servers/android-device/src/android_device_mcp/persistence/learning_store.py:96-179 | a disabled store changes nothing; otherwise the row is upserted and the reply says whether it was new |
| Persistence.LearningStore.GetPattern | mcp-servers/android-device/src/android_device_mcp/persistence/learning_store.py:181-226 | the stored row exactly when the store is enabled and has the key |
| Persistence.LearningStore.ListPatterns | mcp-servers/android-device/src/android_device_mcp/persistence/learning_store.py:228-290 | the app's rows of the type asked for, newest first, at most `limit` |
| Persistence.LearningStore.DeletePattern | mcp-servers/android-device/src/android_device_mcp/persistence/learning_store.py:292-321 | removes exactly that row and says whether it existed |
| Persistence.LearningStore.LogInteraction | mcp-servers/android-device/src/android_device_mcp/persistence/learning_store.py:323-395 | appends the entry and bumps the named pattern's counters and confidence |
| Persistence.LearningStore.ReliabilityStats | mcp-servers/android-device/src/android_device_mcp/persistence/learning_store.py:397-449 | the per-action tally of the app's log entries within the last `days` days |
| Persistence.LearningStore.DecayOldPatterns | mcp-servers/android-device/src/android_device_mcp/persistence/learning_store.py:451-481 | every stale row is decayed and their number returned |
| Persistence.LearningStore.Close | mcp-servers/android-device/src/android_device_mcp/persistence/learning_store.py:483-487 | the store is disabled and its data kept |
| Persistence.DeleteThenGet | mcp-servers/android-device/src/android_device_mcp/persistence/learning_store.py:181-321 | after a delete the pattern is not found |
| Persistence.StatsExample | mcp-servers/android-device/src/android_device_mcp/persistence/learning_store.py:397-449 | three taps, two successful, are reported as 3 attempts and 2 successes |
| Visual.PatternKeyChoice | mcp-servers/android-device/src/android_device_mcp/tools/visual.py:309 | the learning key is the text, else the resource id, else the content description; it is empty exactly when all three are |
| Visual.StoredSelectors | mcp-servers/android-device/src/android_device_mcp/tools/visual.py:315-316 | the stored selectors can be read exactly when the data is a dict whose `selectors` is iterable |
| Visual.SortKey | mcp-servers/android-device/src/android_device_mcp/tools/visual.py:317 | a dict's confidence, 0 when missing; an entry that is not a dict has no key |
| Visual.ArgOf | mcp-servers/android-device/src/android_device_mcp/tools/visual.py:318-322 | a stored string is passed on; a missing or falsy value searches for nothing; any other value fails |
| Visual.FragmentQuery | mcp-servers/android-device/src/android_device_mcp/tools/visual.py:318-322 | the cached search never passes a class name |
| Visual.ReadFragmentsSpec | mcp-servers/android-device/src/android_device_mcp/tools/visual.py:317 | the sort succeeds exactly when every entry has a key, and each fragment remembers its position |
| Visual.InsertRankedSpec | mcp-servers/android-device/src/android_device_mcp/tools/visual.py:317 | inserting keeps the order and adds exactly one element |
| Visual.RankSpec | mcp-servers/android-device/src/android_device_mcp/tools/visual.py:317 | ranking is a permutation into descending confidence, stable among equals |
| Visual.RankedUnique | mcp-servers/android-device/src/android_device_mcp/tools/visual.py:317 | that order is the only ranked permutation |
| Visual.TryFragmentsSpec | mcp-servers/android-device/src/android_device_mcp/tools/visual.py:317-324 | the cache answers the first fragment that finds an element, after all earlier ones missed; None exactly when all miss |
| Visual.CacheStepSpec | mcp-servers/android-device/src/android_device_mcp/tools/visual.py:308-326 | the cache hits exactly for a non-empty key, a known package, an enabled store holding an element pattern with readable selectors, and a fragment that finds the element |
| Visual.SeedDataNeverHits | mcp-servers/android-device/src/android_device_mcp/tools/visual.py:337-360 | as written, the learned pattern of an element lacking one of its three attributes never serves a cache hit |
| Visual.LearnedDataRanks | mcp-servers/android-device/src/android_device_mcp/tools/visual.py:317-360 | with the intended data every entry has a key, and the cache tries the element's own attributes by descending confidence |
| Visual.LearnedItems | mcp-servers/android-device/src/android_device_mcp/tools/visual.py:346-355 | the intended entries, written out |
| Visual.SeedEntryReads | mcp-servers/android-device/src/android_device_mcp/tools/visual.py:346-355 | a present entry sorts by its confidence and searches by its one attribute |
| Visual.FindSingleElement | mcp-servers/android-device/src/android_device_mcp/tools/visual.py:285-362 | a cache hit answers without the direct search; otherwise the direct search answers, its exceptions propagate, and a hit with a key is learned for the package the second read reports, with the selector list as written (`None` for each missing attribute) |
| Visual.FindSingleElementCorrected | mcp-servers/android-device/src/android_device_mcp/tools/visual.py:285-362 | as `find_single_element`, but a direct hit is learned with only the attributes the element has, the data `Visual.LearnedDataRanks` shows a later cache step serves |
| Visual.TryCache | mcp-servers/android-device/src/android_device_mcp/tools/visual.py:310-326 | the loop computes the reference cache step |
| Visual.FindMultipleElements | mcp-servers/android-device/src/android_device_mcp/tools/visual.py:365-400 | the dicts of what the search found, in its order, at most max(limit, 1); errors propagate |
| Visual.AnyIn | mcp-servers/android-device/src/android_device_mcp/tools/visual.py:274-278 | some marker occurs in the text |
| Visual.FilterBounds | mcp-servers/android-device/src/android_device_mcp/tools/visual.py:265-282 | the loop keeps the passing entries in order, stopping at max(limit, 1) |
| Visual.BoundsFilterSpec | mcp-servers/android-device/src/android_device_mcp/tools/visual.py:265-282 | the kept entries are an ordered selection of passing entries, and when fewer than the limit no passing entry was left out |
| Visual.GetBounds | mcp-servers/android-device/src/android_device_mcp/tools/visual.py:245-282 | the entries are the first max(limit, 1) of the bounds view of all elements that pass the clickable and system-UI filters, in order; a failure of the element listing propagates; every entry passes the filters and is non-empty |
| Visual.PruneAllMembers | mcp-servers/android-device/src/android_device_mcp/tools/visual.py:213-242 | the pruned children are exactly the pruned kept children |
| Visual.AnyKeptPrunes | mcp-servers/android-device/src/android_device_mcp/tools/visual.py:213-242 | a kept child survives pruning |
| Visual.PruneAdmissible | mcp-servers/android-device/src/android_device_mcp/tools/visual.py:178-242 | the pruned tree respects the filter below the root: no non-clickable leaf in clickable mode, no system bar when system UI is excluded |
| Visual.PruneInactive | mcp-servers/android-device/src/android_device_mcp/tools/visual.py:170-176 | with no filter asked for the tree is unchanged |
| Visual.PruneTree | mcp-servers/android-device/src/android_device_mcp/tools/visual.py:213-242 | the in-place loop computes the reference pruning |
| Visual.GetHierarchy | mcp-servers/android-device/src/android_device_mcp/tools/visual.py:149-176 | the raw XML when no filter applies or it does not parse; otherwise the serialised pruned tree |
| Visual.StopReplyOf | mcp-servers/android-device/src/android_device_mcp/tools/visual.py:430-463 | only non-adapter exceptions propagate |
| Visual.Recorder.constructor | mcp-servers/android-device/src/android_device_mcp/tools/visual.py:403-427 | no recording is active |
| Visual.Recorder.StartRecording | mcp-servers/android-device/src/android_device_mcp/tools/visual.py:403-427 | refused while active; the flag is set only when the adapter started recording |
| Visual.Recorder.StopRecording | mcp-servers/android-device/src/android_device_mcp/tools/visual.py:430-463 | nothing to stop without the flag; otherwise the adapter's answer, and the flag is cleared unless an unexpected exception escapes |
| Interaction.PyIndex | mcp-servers/android-device/src/android_device_mcp/tools/interaction.py:80 | Python indexing succeeds exactly for -len ≤ i < len |
| Interaction.PickedMatch | mcp-servers/android-device/src/android_device_mcp/tools/interaction.py:66-80 | a non-negative index picks that match, -1 the only match searched for, and below -1 an IndexError |
| Interaction.CatchTap | mcp-servers/android-device/src/android_device_mcp/tools/interaction.py:108-112 | an ADBError becomes an error reply; every other exception propagates |
| Interaction.LogTarget | mcp-servers/android-device/src/android_device_mcp/tools/interaction.py:88-99 | the logged selector is the resource id, else the text, else the content description; none when all are empty |
| Interaction.PerformTapElement | mcp-servers/android-device/src/android_device_mcp/tools/interaction.py:36-112 | searches index+1 matches; no match, a bad index or an error each give their reply; a tap is sent exactly when the Python index picks a match, at that match's centre, and it is reported and logged with its outcome, the store changing only then |
| Interaction.Item | mcp-servers/android-device/src/android_device_mcp/tools/interaction.py:414-448 | a batch item keeps its index and selector; success carries the tap point and no error, failure an error and no point |
| Interaction.TapFirst | mcp-servers/android-device/src/android_device_mcp/tools/interaction.py:414-448 | one item of the batch is the reference item |
| Interaction.SearchItem | mcp-servers/android-device/src/android_device_mcp/tools/interaction.py:406-413 | one search of the batch is the reference search on the current connection |
| Interaction.Searches | mcp-servers/android-device/src/android_device_mcp/tools/interaction.py:406-413 | one search per selector |
| Interaction.CountSucceeded | mcp-servers/android-device/src/android_device_mcp/tools/interaction.py:453-461 | successes never exceed results |
| Interaction.BatchResultsSpec | mcp-servers/android-device/src/android_device_mcp/tools/interaction.py:375-463 | one result per selector, the k-th being the reference item for the k-th search |
| Interaction.DelaysSpec | mcp-servers/android-device/src/android_device_mcp/tools/interaction.py:445-448 | the batch pauses after item k exactly when the delay is positive, k is not the last item, and item k answered |
| Interaction.PerformTapElements | mcp-servers/android-device/src/android_device_mcp/tools/interaction.py:375-463 | the total, the results, the success and failure counts that add up to the total, and the pauses, all against the reference definitions |
| Interaction.PerformGesturePath | mcp-servers/android-device/src/android_device_mcp/tools/interaction.py:466-511 | fewer than two points is refused; otherwise consecutive points are swiped with an equal share of the duration, stopping at the first failed segment, which is reported with the number completed |
| Interaction.ScrollSwipe | mcp-servers/android-device/src/android_device_mcp/tools/interaction.py:214-230 | defined exactly for the four directions; the swipe is centred on the screen, along the direction's axis, and opposite to the scroll direction |
| Interaction.PerformScroll | mcp-servers/android-device/src/android_device_mcp/tools/interaction.py:197-242 | a screen-size failure or an unknown direction is reported without a swipe; otherwise one 300 ms swipe, and its outcome |
| Interaction.FallbackSteps | mcp-servers/android-device/src/android_device_mcp/tools/interaction.py:330-345 | the fallback deletes 51 characters when clearing first, then types the text |
| Interaction.DeletionsPrefix | mcp-servers/android-device/src/android_device_mcp/tools/interaction.py:336-338 | the deletions sent so far are a prefix of all deletions |
| Interaction.PerformType | mcp-servers/android-device/src/android_device_mcp/tools/interaction.py:311-351 | `set_text` answers when it works; on an ADBError the fallback sends its steps in order, stopping at the first failure |
| Observation.FirstBlocked | mcp-servers/android-device/src/android_device_mcp/tools/observation.py:34-37 | the first blocked pattern contained in the command, none exactly when no pattern occurs |
| Observation.IsCommandSafe | mcp-servers/android-device/src/android_device_mcp/tools/observation.py:24-45 | safe exactly when no blocked pattern occurs and the allowlist is empty or names the first word; otherwise the reason |
| Observation.BlockedEvenIfAllowed | mcp-servers/android-device/src/android_device_mcp/tools/observation.py:24-45 | a blocked pattern wins over the allowlist |
| Observation.RmRfRootBlocked | mcp-servers/android-device/src/android_device_mcp/tools/observation.py:13-45 | `rm -rf /` is refused even with `rm` allowed |
| Observation.ExecuteShell | mcp-servers/android-device/src/android_device_mcp/tools/observation.py:65-105 | the shell runs exactly when shell commands are enabled and the command is safe; its ADBError becomes a reply, other exceptions propagate |
| Observation.PsPidsAreSecondFields | mcp-servers/android-device/src/android_device_mcp/tools/observation.py:141-146 | the pids read from `ps` are exactly the decimal second fields of its lines |
| Observation.ParsePsPids | mcp-servers/android-device/src/android_device_mcp/tools/observation.py:141-146 | the loop reads those pids |
| Observation.PidLinesAreMatches | mcp-servers/android-device/src/android_device_mcp/tools/observation.py:157-166 | the kept log lines are exactly the lines the pid pattern matches |
| Observation.FilterPidLines | mcp-servers/android-device/src/android_device_mcp/tools/observation.py:157-166 | the loop keeps those lines in order |
| Observation.PyTail | mcp-servers/android-device/src/android_device_mcp/tools/observation.py:167 | `xs[-n:]`: the last n items, or all of them when n is 0 |
| Observation.FilteredKeepsLast | mcp-servers/android-device/src/android_device_mcp/tools/observation.py:150-167 | the filtered log is the last at most `lines` matching lines of the output |
| Observation.GetLogcat | mcp-servers/android-device/src/android_device_mcp/tools/observation.py:108-175 | the tool's reply and the logcat request are the reference ones |
| Observation.ToastOf | mcp-servers/android-device/src/android_device_mcp/tools/observation.py:381-385 | a toast is the non-empty stripped text after a line's first colon |
| Observation.ToastsFromLines | mcp-servers/android-device/src/android_device_mcp/tools/observation.py:380-385 | every message comes from some line, and every line carrying one contributes it |
| Observation.CollectToasts | mcp-servers/android-device/src/android_device_mcp/tools/observation.py:380-385 | the loop collects those messages |
| Observation.GetToastMessages | mcp-servers/android-device/src/android_device_mcp/tools/observation.py:355-394 | an error becomes an error reply; otherwise the messages, their count, and `found` exactly when there is one |
| Observation.ForegroundPackage | mcp-servers/android-device/src/android_device_mcp/tools/observation.py:193-205 | the current package, "unknown" on an ADBError; other exceptions propagate |
| Utils.Trunc | mcp-servers/android-device/src/android_device_mcp/utils.py:53 | Python's `int` on a float truncates toward zero |
| Utils.RetryAsync | mcp-servers/android-device/src/android_device_mcp/utils.py:13-59 | the loop produces the reference trace: result, number of calls and sleeps |
| Utils.RetryCounts | mcp-servers/android-device/src/android_device_mcp/utils.py:40-59 | at most max_retries + 1 calls, with a sleep between consecutive calls only; none at all for a negative max_retries |
| Utils.RetryOutcome | mcp-servers/android-device/src/android_device_mcp/utils.py:40-59 | the result is the last call's; every earlier call raised a retried exception; the last call succeeded, raised an uncaught exception, or was the last allowed |
| Utils.WithRetry | mcp-servers/android-device/src/android_device_mcp/utils.py:62-92 | the decorated call is the retry loop with the decorator's policy |
| Utils.FormatErrorMessage | mcp-servers/android-device/src/android_device_mcp/utils.py:104-119 | "context: Type - message" with a context, "Type: message" without; the message always ends the text |
| Utils.SafeDictGet | mcp-servers/android-device/src/android_device_mcp/utils.py:122-139 | the value at the key path, or the default when any step is missing or not a dict |
| LearningTools.CheckPatternType | mcp-servers/android-device/src/android_device_mcp/tools/learning.py:32-37 | a type is accepted exactly when it is one of the four; a refusal names the four |
| LearningTools.SavePattern | mcp-servers/android-device/src/android_device_mcp/tools/learning.py:11-45 | a type outside the four leaves the store untouched; otherwise the store's save runs |
| LearningTools.GetPattern | mcp-servers/android-device/src/android_device_mcp/tools/learning.py:48-63 | the stored row, when there is one |
| LearningTools.ListPatterns | mcp-servers/android-device/src/android_device_mcp/tools/learning.py:66-83 | the store's newest-first summaries |
| LearningTools.DeletePattern | mcp-servers/android-device/src/android_device_mcp/tools/learning.py:86-101 | removes the row and says whether it existed |
| LearningTools.LogInteraction | mcp-servers/android-device/src/android_device_mcp/tools/learning.py:104-134 | appends the entry and updates the named pattern |
| LearningTools.GetStats | mcp-servers/android-device/src/android_device_mcp/tools/learning.py:137-152 | the per-action tally of the last `days` days |

## Left out

- Process spawning, pipes, timeouts and killing a timed-out `adb` process (adb.py:118-206): a command's outcome is a parameter, the function from the command text to a `CommandResult` or an exception.
- The uiautomator2 library and ElementTree: connecting, dumping, native search and native wait, XML parsing and XPath evaluation are oracle fields of `World`; the XML search over attributes is modelled on a node tree.
- SQLite, JSON encoding and ISO timestamps: the pattern table is a map, the log a sequence, times integers; the `confidence` column is a real.
- Floating point: `success_rate` (`round(successes / total, 3)`) and `avg_latency_ms` (`round` of the SQL average) of `get_reliability_stats` (learning_store.py:437-438) are not computed; `ReliabilityStats` returns the attempt and success counts they derive from. The scroll distance `int(width * amount * 0.8)` (and its height twin, interaction.py:215-216) is the `dist` parameter of `PerformScroll`; the backoff product is `Trunc` over reals, with no rounding error.
- Sleeping: the model records where `perform_tap_elements` and the polling loop pause, not how long the clock runs.
- `asyncio` concurrency and the `gather` of `get_device_info`: each tool is modelled as one sequential run.
- The compression of the pruned XML text at visual.py:230-240: `GetHierarchy` takes the serialiser as a parameter.
- The iteration order of a Python set in error texts: `LearningTools.SavePattern` returns the set of allowed types instead of its rendering; the key table listed by `Adb.KeyCodeOf` is a fixed rendering.
- FirstBlocked (`Observation.FirstBlocked`): `BLOCKED_COMMANDS` is a Python set, so when a command contains several blocked patterns the one named in the reason depends on the set's iteration order; the model fixes the listing order, so the pattern named by `Observation.BlockedEvenIfAllowed` (second ensures) and by the reason of `Observation.ExecuteShell` is one the source may name, not necessarily the one it names. Whether a command is blocked does not depend on the order.
- Python `None` against the empty string: selector arguments are strings, and the empty string stands for a missing one; non-string selector values are not modelled, and neither are gesture points missing their keys.
- WaitForElement (`UiAutomator.UiAutomatorAdapter.WaitForElement`): for a non-positive poll interval it runs the corrected loop of the second Findings row (one attempt per millisecond); the source's loop does not end then.
- `Visual.PruneTree`: the tree is pruned on values; removing children from ElementTree nodes in place, and aliasing between nodes, are not modelled.
- `uiautomator.set_text` (uiautomator.py:409-429) is the `setText` outcome given to `PerformType`.
- Screenshots (`take_screenshot`, visual.py:19-146; `screenshot`, adb.py:301-353), device info, activity queries, APK install and uninstall, app launch, and the server's tool registration are not part of this model.
- NormalizeKeyCharwise (`Adb.NormalizeKeyCharwise`): lower-casing is ASCII only; Python's `str.lower` also folds non-ASCII letters (and turns "İ" into two characters), so a key name with such letters normalises differently.
- KeyCodeOf (`Adb.KeyCodeOf`): looks names up after the ASCII-only normalisation above; a name that needs non-ASCII lower-casing to match the table (the Kelvin sign U+212A in place of "k", say) is reported unknown here and found by the source.
- SearchSizeLeftmost (`Adb.SearchSizeLeftmost`): `\d` matches only ASCII digits here; Python's `\d` also matches other Unicode decimal digits, which `wm size` does not print. The same holds for `Adb.VersionCodeFrom`, and `Adb.VersionNameFrom` reads `\S` with the whitespace table of `Strings.IsSpace`.
- ParseBounds (`UiAutomator.ParseBounds`): the `\d+` of the bounds pattern is ASCII digits only, where Python also accepts other Unicode decimal digits.
- PyInt (`UiAutomator.PyInt`): the digits it accepts (single underscores between them allowed, as in Python) are ASCII digits only; Python's `int` also accepts other Unicode decimal digits.
- PsPidsAreSecondFields (`Observation.PsPidsAreSecondFields`): `str.isdigit` is ASCII digits only here; Python also counts other Unicode digits, so such a field would be kept by the source and dropped by the model.
- The case-insensitive line tests of `get_app_info` and `list_packages` (adb.py:635, 665) lower-case ASCII letters only.
- Logging calls (`logger.debug`, `logger.warning`) have no effect on results and are dropped.

## Findings

| source | as written | input that shows it | evidently intended | confidence | as-written member | corrected member |
|---|---|---|---|---|---|---|
| mcp-servers/android-device/src/android_device_mcp/tools/visual.py:337-360 | the learned selector list holds `None` for each attribute the element lacks; the sort key at line 317 calls `.get` on it and raises, and the lookup is abandoned | an element with text "OK" and no resource id or content description, found directly and looked up again | store only the attributes the element has, so the cached lookup can hit | not executed; high | Visual.FindSingleElement, Visual.SeedDataNeverHits | Visual.FindSingleElementCorrected, Visual.LearnedDataRanks |
| mcp-servers/android-device/src/android_device_mcp/adapters/uiautomator.py:499-505 | the polling adds `poll_interval_ms` to `elapsed` and loops while `elapsed < timeout_ms`, with no check on the interval | `poll_interval_ms=0` (or negative) with the default timeout, on a screen without the element, after a native wait fails or without uiautomator2 | the polling stops once the timeout is reached, whatever interval is given | not executed; medium | UiAutomator.PollingNeverEnds | UiAutomator.WaitIntervalEnds |
