/** The UI element adapter: the element record, parsing of `uiautomator
    dump` nodes, extraction of the XML from a raw dump, the attribute search
    of `find_elements` with its backend choice, the "has size" view and the
    polling fallback of `wait_for_element`.

    The device is an oracle: a `World` holds what the uiautomator2 backend
    and the ADB shell answer during one call, the XML parser and the XPath
    engine. */
module UiAutomator {
  import opened Base
  import opened Strings
  import opened Adb

  // ---------------------------------------------------------------- elements

  datatype Bounds = Bounds(left: int, top: int, right: int, bottom: int)

  datatype Element = Element(
    text: string, resourceId: string, className: string, contentDesc: string,
    bounds: Bounds,
    checkable: bool, checked: bool, clickable: bool, enabled: bool,
    focusable: bool, focused: bool, scrollable: bool, selected: bool,
    index: int, package: string)
  {
    /** The centre, with Python's floor division by 2 on both axes. */
    function Center(): (c: (int, int))
      ensures 2 * c.0 <= bounds.left + bounds.right < 2 * c.0 + 2
      ensures 2 * c.1 <= bounds.top + bounds.bottom < 2 * c.1 + 2
    {
      ((bounds.left + bounds.right) / 2, (bounds.top + bounds.bottom) / 2)
    }

    function Width(): int { bounds.right - bounds.left }

    function Height(): int { bounds.bottom - bounds.top }

    /** `to_dict`: the JSON view reports the same centre, width and height
        as the properties. */
    function ToDict(): (d: Value)
      ensures d.Dict? && "center" in d.fields && "width" in d.fields && "height" in d.fields
      ensures d.fields["center"] == Dict(map["x" := Num(Center().0 as real), "y" := Num(Center().1 as real)])
      ensures d.fields["width"] == Num((bounds.right - bounds.left) as real)
      ensures d.fields["height"] == Num((bounds.bottom - bounds.top) as real)
    {
      Dict(map[
        "text" := Str(text),
        "resource_id" := Str(resourceId),
        "class_name" := Str(className),
        "content_desc" := Str(contentDesc),
        "bounds" := Dict(map[
          "left" := Num(bounds.left as real),
          "top" := Num(bounds.top as real),
          "right" := Num(bounds.right as real),
          "bottom" := Num(bounds.bottom as real)]),
        "center" := Dict(map["x" := Num(Center().0 as real), "y" := Num(Center().1 as real)]),
        "width" := Num(Width() as real),
        "height" := Num(Height() as real),
        "clickable" := Bool(clickable),
        "enabled" := Bool(enabled),
        "scrollable" := Bool(scrollable),
        "package" := Str(package)])
    }
  }

  /** The centre of well-ordered bounds lies inside them. */
  lemma CenterInside(e: Element)
    requires e.bounds.left <= e.bounds.right && e.bounds.top <= e.bounds.bottom
    ensures e.bounds.left <= e.Center().0 <= e.bounds.right
    ensures e.bounds.top <= e.Center().1 <= e.bounds.bottom
    ensures e.Width() >= 0 && e.Height() >= 0
  {
  }

  // ---------------------------------------------------------------- the node tree

  /** An element of the parsed hierarchy: its tag, attributes and children. */
  datatype Node = Node(tag: string, attrs: map<string, string>, children: seq<Node>)

  /** `node.get(key, default)`. */
  function Attr(n: Node, key: string, default: string): string {
    if key in n.attrs then n.attrs[key] else default
  }

  /** Document order: a node, then its children's subtrees left to right. */
  function PreOrder(n: Node): (r: seq<Node>)
    decreases n, 1
    ensures r != [] && r[0] == n
  {
    [n] + PreOrderAll(n.children)
  }

  function PreOrderAll(ns: seq<Node>): seq<Node>
    decreases ns, 0
  {
    if ns == [] then [] else PreOrder(ns[0]) + PreOrderAll(ns[1..])
  }

  /** The nodes of a sequence that carry a tag, in order. */
  function Tagged(ns: seq<Node>, tag: string): (r: seq<Node>)
    ensures forall k :: 0 <= k < |r| ==> r[k].tag == tag
  {
    if ns == [] then []
    else (if ns[0].tag == tag then [ns[0]] else []) + Tagged(ns[1..], tag)
  }

  /** `root.iter(tag)`. */
  function Iter(root: Node, tag: string): seq<Node> {
    Tagged(PreOrder(root), tag)
  }

  // ---------------------------------------------------------------- bounds

  /** A leading digit run followed by the character `c`: its value and
      what follows `c`. */
  function NumThen(s: string, c: char): (r: Option<(nat, string)>)
    ensures r.Some? ==> |r.value.1| < |s|
  {
    match ParseNatAt(s, 0)
    case None => None
    case Some(p) => if p.1 < |s| && s[p.1] == c then Some((p.0, s[p.1 + 1..])) else None
  }

  /** `re.match(r"\[(\d+),(\d+)\]\[(\d+),(\d+)\]", s)`: the four numbers
      if the string starts with that shape. */
  function BoundsAt(s: string): Option<Bounds> {
    if |s| == 0 || s[0] != '[' then None
    else
      match NumThen(s[1..], ',')
      case None => None
      case Some(l) =>
        match NumThen(l.1, ']')
        case None => None
        case Some(t) =>
          if |t.1| == 0 || t.1[0] != '[' then None
          else
            match NumThen(t.1[1..], ',')
            case None => None
            case Some(r) =>
              match NumThen(r.1, ']')
              case None => None
              case Some(b) => Some(Bounds(l.0, t.0, r.0, b.0))
  }

  /** `_parse_bounds`: the four numbers, or all zeros when the string does
      not start with the shape. The order of the corners is not checked. */
  function ParseBounds(s: string): (r: Bounds)
    ensures r.left >= 0 && r.top >= 0 && r.right >= 0 && r.bottom >= 0
    ensures BoundsAt(s).None? ==> r == Bounds(0, 0, 0, 0)
  {
    match BoundsAt(s)
    case Some(b) => b
    case None => Bounds(0, 0, 0, 0)
  }

  /** The text uiautomator writes for a node's bounds. */
  function BoundsText(l: nat, t: nat, r: nat, b: nat): string {
    "[" + NatToString(l) + "," + NatToString(t) + "][" + NatToString(r) + "," + NatToString(b) + "]"
  }

  /** A printed number followed by the expected character reads back. */
  lemma NumThenPrinted(n: nat, c: char, rest: string)
    requires !IsDigit(c)
    ensures NumThen(NatToString(n) + [c] + rest, c) == Some((n, rest))
  {
    var N := NatToString(n);
    var s := N + [c] + rest;
    assert s[0..|N|] == N;
    assert s[|N|] == c;
    assert s[|N| + 1..] == rest;
    ParseNatAtString(s, 0, n);
  }

  /** Printed bounds read back as the same four numbers, whatever follows
      them and whether or not the corners are ordered. */
  lemma ParseBoundsPrinted(l: nat, t: nat, r: nat, b: nat, rest: string)
    ensures ParseBounds(BoundsText(l, t, r, b) + rest) == Bounds(l, t, r, b)
  {
    var s3 := NatToString(b) + [']'] + rest;
    var s2 := NatToString(r) + [','] + s3;
    var s1 := NatToString(t) + [']'] + ("[" + s2);
    BoundsTextNested(l, t, r, b, rest);
    NumThenPrinted(l, ',', s1);
    NumThenPrinted(t, ']', "[" + s2);
    NumThenPrinted(r, ',', s3);
    NumThenPrinted(b, ']', rest);
    BoundsAtSteps(NatToString(l) + [','] + s1, s1, s2, s3, rest, l, t, r, b);
  }

  /** The four numbers read one after the other. */
  lemma BoundsAtSteps(a: string, x: string, y: string, z: string, w: string, l: nat, t: nat, r: nat, b: nat)
    requires NumThen(a, ',') == Some((l, x)) && NumThen(x, ']') == Some((t, "[" + y))
    requires NumThen(y, ',') == Some((r, z)) && NumThen(z, ']') == Some((b, w))
    ensures BoundsAt("[" + a) == Some(Bounds(l, t, r, b))
  {
    assert ("[" + a)[1..] == a;
    assert ("[" + y)[1..] == y;
  }

  lemma BoundsTextNested(l: nat, t: nat, r: nat, b: nat, rest: string)
    ensures BoundsText(l, t, r, b) + rest
      == "[" + (NatToString(l) + [','] + (NatToString(t) + [']'] + ("[" + (NatToString(r) + [','] + (NatToString(b) + [']'] + rest)))))
  {
    Nest(NatToString(l), NatToString(t), NatToString(r), NatToString(b), rest);
  }

  lemma Nest(L: string, T: string, R: string, B: string, rest: string)
    ensures "[" + L + "," + T + "][" + R + "," + B + "]" + rest
      == "[" + (L + [','] + (T + [']'] + ("[" + (R + [','] + (B + [']'] + rest)))))
  {
    assert "][" == [']'] + "[";
  }

  /** The default bounds of a node without the attribute are all zeros. */
  lemma DefaultBoundsZero()
    ensures ParseBounds("[0,0][0,0]") == Bounds(0, 0, 0, 0)
  {
    assert NatToString(0) == "0";
    assert BoundsText(0, 0, 0, 0) + "" == "[0,0][0,0]";
    ParseBoundsPrinted(0, 0, 0, 0, "");
  }

  // ---------------------------------------------------------------- int()

  predicate DigitsOrUnderscores(b: string) {
    forall k :: 0 <= k < |b| ==> IsDigit(b[k]) || b[k] == '_'
  }

  /** The digits of `int()`'s argument: digits, with single underscores
      allowed between two digits. */
  predicate IntBody(b: string) {
    && b != [] && IsDigit(b[0]) && IsDigit(b[|b| - 1])
    && DigitsOrUnderscores(b)
    && forall k :: 0 <= k < |b| - 1 && b[k] == '_' ==> IsDigit(b[k + 1])
  }

  function DropUnderscores(b: string): (r: string)
    requires DigitsOrUnderscores(b)
    ensures AllDigits(r)
  {
    if b == [] then []
    else (if b[0] == '_' then [] else [b[0]]) + DropUnderscores(b[1..])
  }

  /** `int(s)` for a string in base 10: whitespace around an optional sign
      and the digits; anything else raises ValueError. */
  function PyInt(s: string): (r: Result<int>)
    ensures r.Err? ==> r.exn.kind == ValueErr
  {
    var t := Strip(s);
    var signed := t != [] && (t[0] == '-' || t[0] == '+');
    var body := if signed then t[1..] else t;
    if IntBody(body) then
      var v: int := DigitsValue(DropUnderscores(body));
      Ok(if signed && t[0] == '-' then -v else v)
    else Err(Exn(ValueErr, "invalid literal for int() with base 10: '" + s + "'"))
  }

  /** Stripping leaves a string with non-blank ends alone. */
  lemma StripUnchanged(s: string)
    requires s != [] && !IsSpace(s[0]) && !IsSpace(s[|s| - 1])
    ensures Strip(s) == s
  {
    assert StripLeft(s) == s;
  }

  lemma {:induction false} DropUnderscoresDigits(b: string)
    requires AllDigits(b)
    ensures DropUnderscores(b) == b
  {
    if b != [] {
      DropUnderscoresDigits(b[1..]);
      assert b == [b[0]] + b[1..];
    }
  }

  lemma DigitsIntBody(d: string)
    requires d != [] && AllDigits(d)
    ensures IntBody(d) && DropUnderscores(d) == d
  {
    DropUnderscoresDigits(d);
  }

  /** Plain digits read back as their value. */
  lemma PyIntDigits(d: string)
    requires d != [] && AllDigits(d)
    ensures PyInt(d) == Ok(DigitsValue(d))
  {
    StripUnchanged(d);
    DigitsIntBody(d);
    assert !(d[0] == '-' || d[0] == '+');
  }

  /** A minus sign and plain digits read back as the negated value. */
  lemma PyIntMinusDigits(d: string)
    requires d != [] && AllDigits(d)
    ensures PyInt("-" + d) == Ok(-(DigitsValue(d) as int))
  {
    var s := "-" + d;
    assert s[0] == '-' && s[1..] == d && s[|s| - 1] == d[|d| - 1];
    StripUnchanged(s);
    DigitsIntBody(d);
  }

  /** `int(str(i)) == i`. */
  lemma PyIntPrinted(i: int)
    ensures PyInt(IntToString(i)) == Ok(i)
  {
    var n: nat := if i < 0 then -i else i;
    var d := NatToString(n);
    NatToStringDigits(n);
    if i < 0 {
      assert IntToString(i) == "-" + d;
      PyIntMinusDigits(d);
    } else {
      assert IntToString(i) == d;
      PyIntDigits(d);
    }
  }

  // ---------------------------------------------------------------- _parse_element

  /** A flag attribute compared with "true", with its default. */
  function Flag(n: Node, key: string, default: string): bool {
    Attr(n, key, default) == "true"
  }

  /** `_parse_element`: string attributes default to "", flags compare with
      "true", bounds are parsed and `index` goes through `int()`, which may
      raise. */
  function ParseElement(n: Node): (r: Result<Element>)
    ensures r.Ok? <==> PyInt(Attr(n, "index", "0")).Ok?
    ensures r.Err? ==> r == Err(PyInt(Attr(n, "index", "0")).exn)
  {
    var index := PyInt(Attr(n, "index", "0"));
    if index.Err? then Err(index.exn)
    else
      Ok(Element(
        Attr(n, "text", ""), Attr(n, "resource-id", ""), Attr(n, "class", ""), Attr(n, "content-desc", ""),
        ParseBounds(Attr(n, "bounds", "[0,0][0,0]")),
        Flag(n, "checkable", "false"), Flag(n, "checked", "false"), Flag(n, "clickable", "false"),
        Flag(n, "enabled", "true"), Flag(n, "focusable", "false"), Flag(n, "focused", "false"),
        Flag(n, "scrollable", "false"), Flag(n, "selected", "false"),
        index.value, Attr(n, "package", "")))
  }

  /** The attribute defaults: `enabled` holds unless the attribute is
      present and not "true"; every other flag holds only when the attribute
      is present and exactly "true"; a missing string attribute is "" and a
      missing `index` is 0. */
  lemma ParseElementDefaults(n: Node)
    requires ParseElement(n).Ok?
    ensures var e := ParseElement(n).value;
      && (e.enabled <==> "enabled" !in n.attrs || n.attrs["enabled"] == "true")
      && (e.clickable <==> "clickable" in n.attrs && n.attrs["clickable"] == "true")
      && (e.checkable <==> "checkable" in n.attrs && n.attrs["checkable"] == "true")
      && (e.checked <==> "checked" in n.attrs && n.attrs["checked"] == "true")
      && (e.focusable <==> "focusable" in n.attrs && n.attrs["focusable"] == "true")
      && (e.focused <==> "focused" in n.attrs && n.attrs["focused"] == "true")
      && (e.scrollable <==> "scrollable" in n.attrs && n.attrs["scrollable"] == "true")
      && (e.selected <==> "selected" in n.attrs && n.attrs["selected"] == "true")
      && ("text" !in n.attrs ==> e.text == "")
      && ("resource-id" !in n.attrs ==> e.resourceId == "")
      && ("class" !in n.attrs ==> e.className == "")
      && ("content-desc" !in n.attrs ==> e.contentDesc == "")
      && ("package" !in n.attrs ==> e.package == "")
      && ("bounds" !in n.attrs ==> e.bounds == Bounds(0, 0, 0, 0))
  {
    if "bounds" !in n.attrs {
      DefaultBoundsZero();
    }
  }

  /** A node without an `index` attribute always parses, with index 0. */
  lemma ParseElementNoIndex(n: Node)
    requires "index" !in n.attrs
    ensures ParseElement(n).Ok? && ParseElement(n).value.index == 0
  {
    PyIntPrinted(0);
    assert IntToString(0) == "0";
  }

  /** A per-node computation applied to each node, in order. */
  function MapNodes(ns: seq<Node>, f: Node -> Result<Element>): (r: seq<Result<Element>>)
    ensures |r| == |ns|
  {
    seq(|ns|, k requires 0 <= k < |ns| => f(ns[k]))
  }

  /** Parsing each node, lazily as the loops of the adapter do. */
  function ParseEach(ns: seq<Node>): (r: seq<Result<Element>>)
    ensures |r| == |ns| && forall k :: 0 <= k < |ns| ==> r[k] == ParseElement(ns[k])
  {
    MapNodes(ns, ParseElement)
  }

  lemma MapNodesCons(ns: seq<Node>, f: Node -> Result<Element>)
    requires ns != []
    ensures MapNodes(ns, f) == [f(ns[0])] + MapNodes(ns[1..], f)
  {
    var a := MapNodes(ns, f);
    var b := [f(ns[0])] + MapNodes(ns[1..], f);
    assert |a| == |b|;
    forall k | 0 <= k < |a| ensures a[k] == b[k] {
      if k > 0 {
        assert b[k] == MapNodes(ns[1..], f)[k - 1] == f(ns[1..][k - 1]);
      }
    }
  }

  // ---------------------------------------------------------------- selectors

  /** The attribute selector ("" means not supplied). */
  datatype Query = Query(text: string, resourceId: string, className: string, contentDesc: string) {
    predicate AnySet() {
      text != "" || resourceId != "" || className != "" || contentDesc != ""
    }
  }

  /** What the attribute search of `find_elements` accepts: some predicate
      is supplied, and text, resource id and content description occur in
      the node's attribute while the class is equal to it. */
  predicate Selects(q: Query, n: Node) {
    q.AnySet()
    && (q.text == "" || Contains(q.text, Attr(n, "text", "")))
    && (q.resourceId == "" || Contains(q.resourceId, Attr(n, "resource-id", "")))
    && (q.className == "" || q.className == Attr(n, "class", ""))
    && (q.contentDesc == "" || Contains(q.contentDesc, Attr(n, "content-desc", "")))
  }

  /** The nodes the selector accepts, in order. */
  function Selected(ns: seq<Node>, q: Query): seq<Node> {
    if ns == [] then []
    else (if Selects(q, ns[0]) then [ns[0]] else []) + Selected(ns[1..], q)
  }

  /** The selected nodes are an in-order subsequence of the nodes, made of
      exactly the nodes the selector accepts. */
  lemma {:induction false} SelectedSpec(ns: seq<Node>, q: Query)
    ensures Subseq(Selected(ns, q), ns)
    ensures forall n :: n in Selected(ns, q) <==> n in ns && Selects(q, n)
  {
    if ns != [] {
      SelectedSpec(ns[1..], q);
      var rest := Selected(ns[1..], q);
      if Selects(q, ns[0]) {
        assert Selected(ns, q) == [ns[0]] + rest;
        assert ([ns[0]] + rest)[1..] == rest;
      } else {
        assert Selected(ns, q) == rest;
        if rest != [] {
          assert Subseq(rest, ns[1..]);
        }
      }
      assert ns == [ns[0]] + ns[1..];
    }
  }

  /** With no predicate supplied nothing is selected. */
  lemma {:induction false} SelectedNone(ns: seq<Node>, q: Query)
    requires !q.AnySet()
    ensures Selected(ns, q) == []
  {
    if ns != [] {
      SelectedNone(ns[1..], q);
    }
  }

  /** The keyword arguments handed to the uiautomator2 selector, in order. */
  function Kwargs(q: Query): (kw: seq<(string, string)>)
    ensures kw == [] <==> !q.AnySet()
  {
    (if q.text != "" then [("text", q.text)] else [])
    + (if q.resourceId != "" then [("resourceId", q.resourceId)] else [])
    + (if q.className != "" then [("className", q.className)] else [])
    + (if q.contentDesc != "" then [("description", q.contentDesc)] else [])
  }

  /** ElementTree only takes relative paths: an absolute XPath is made
      relative by a leading ".". */
  function SearchPath(xpath: string): (p: string)
    ensures p == [] || p[0] != '/'
    ensures p == xpath || p == "." + xpath
    ensures IsSuffix(xpath, p)
  {
    if |xpath| > 0 && xpath[0] == '/' then "." + xpath else xpath
  }

  // ---------------------------------------------------------------- the device

  /** A live uiautomator2 connection. */
  datatype U2Handle = U2Handle(serial: string)

  /** What the device, the XML parser and the XPath engine answer during one
      call. */
  datatype World = World(
    /** importing uiautomator2, asking for the serial and connecting */
    connect: Result<U2Handle>,
    /** `device.dump_hierarchy()` */
    u2Dump: Result<string>,
    /** iterating `device(**kwargs)` and reading each element's info */
    u2Find: seq<(string, string)> -> seq<Result<Element>>,
    /** `device(**kwargs).wait(timeout)` followed by reading the info */
    u2Wait: (seq<(string, string)>, int) -> Result<Option<Element>>,
    /** `adb shell` */
    shell: string -> Outcome,
    /** `ET.fromstring`; an error carries the ParseError text */
    parse: string -> Result<Node>,
    /** `root.findall(path)` */
    findAll: (Node, string) -> Result<seq<Node>>)

  /** The connection `_get_u2_device` ends up with: a cached one is kept;
      otherwise one is made only when the backend is wanted and connecting
      succeeds. */
  function Connect(dev: Option<U2Handle>, useU2: bool, connect: Result<U2Handle>): (r: Option<U2Handle>)
    ensures r.Some? ==> dev.Some? || (useU2 && connect == Ok(r.value))
    ensures dev.Some? ==> r == dev
    ensures dev.None? && useU2 && connect.Ok? ==> r == Some(connect.value)
    ensures dev.None? && (!useU2 || connect.Err?) ==> r.None?
  {
    if dev.Some? then dev
    else if !useU2 then None
    else if connect.Ok? then Some(connect.value)
    else None
  }

  /** Asking for the connection a second time changes nothing. */
  lemma ConnectIdempotent(dev: Option<U2Handle>, useU2: bool, connect: Result<U2Handle>)
    ensures Connect(Connect(dev, useU2, connect), useU2, connect) == Connect(dev, useU2, connect)
  {
  }

  /** The first position of the XML in a dump: "<?xml" if present,
      otherwise "<hierarchy", otherwise -1. */
  function XmlStart(s: string): (k: int)
    ensures k == -1 <==> (forall j :: !OccursAt("<?xml", s, j)) && (forall j :: !OccursAt("<hierarchy", s, j))
    ensures (exists j :: OccursAt("<?xml", s, j)) ==>
      OccursAt("<?xml", s, k) && forall j :: 0 <= j < k ==> !OccursAt("<?xml", s, j)
    ensures (forall j :: !OccursAt("<?xml", s, j)) && k != -1 ==>
      OccursAt("<hierarchy", s, k) && forall j :: 0 <= j < k ==> !OccursAt("<hierarchy", s, j)
  {
    var k := Find(s, "<?xml");
    if k == -1 then Find(s, "<hierarchy") else k
  }

  /** What `get_all_elements` returns on the screen `w` with the connection
      `dev`: every "node" of the parsed dump, or the first error. */
  function AllElements(dev: Option<U2Handle>, w: World): Result<seq<Element>> {
    var xml := HierarchyXml(dev, w);
    if xml.Err? then Err(xml.exn)
    else
      var root := ParseXml(w, xml.value, "Failed to parse UI hierarchy XML: ");
      if root.Err? then Err(root.exn) else Collect(ParseEach(Iter(root.value, "node")))
  }

  /** The ADB half of `get_hierarchy_xml`: the dump from its XML start on. */
  function DumpFromShell(out: Outcome): (r: Result<string>)
    ensures r.Ok? <==> out.Ok? && out.value.Success() && XmlStart(out.value.stdout) != -1
    ensures r.Ok? ==>
      (&& 0 <= XmlStart(out.value.stdout) <= |out.value.stdout|
       && r.value == out.value.stdout[XmlStart(out.value.stdout)..])
    ensures r.Ok? ==> IsPrefix("<?xml", r.value) || IsPrefix("<hierarchy", r.value)
    ensures out.Err? ==> r == Err(out.exn)
    ensures out.Ok? && r.Err? ==> r.exn.kind == AdbError
  {
    match out
    case Err(e) => Err(e)
    case Ok(res) =>
      if !res.Success() then Fail("Failed to dump UI hierarchy: " + res.stderr)
      else
        var k := XmlStart(res.stdout);
        if k == -1 then Fail("No XML found in hierarchy dump: " + res.stdout[..Min(200, |res.stdout|)])
        else
          XmlStartPrefix(res.stdout);
          Ok(res.stdout[k..])
  }

  /** The text from the XML start on opens with one of the two markers. */
  lemma XmlStartPrefix(s: string)
    requires XmlStart(s) != -1
    ensures 0 <= XmlStart(s) <= |s|
    ensures IsPrefix("<?xml", s[XmlStart(s)..]) || IsPrefix("<hierarchy", s[XmlStart(s)..])
  {
    var k := XmlStart(s);
    if OccursAt("<?xml", s, k) {
      assert s[k..][..5] == s[k..k + 5];
    } else {
      assert s[k..][..10] == s[k..k + 10];
    }
  }

  /** `get_hierarchy_xml`: the uiautomator2 dump when connected and it does
      not raise, the ADB dump otherwise. */
  function HierarchyXml(dev: Option<U2Handle>, w: World): Result<string> {
    if dev.Some? && w.u2Dump.Ok? then w.u2Dump
    else DumpFromShell(w.shell("uiautomator dump /dev/tty"))
  }

  /** A dump whose first XML marker is "<?xml" is cut there. */
  lemma DumpCutAtDeclaration(res: CommandResult, prefix: string, rest: string)
    requires res.Success() && res.stdout == prefix + "<?xml" + rest
    requires !Contains("<?xml", prefix)
    ensures DumpFromShell(Ok(res)) == Ok("<?xml" + rest)
  {
    var s := res.stdout;
    assert OccursAt("<?xml", s, |prefix|) by {
      assert s[|prefix|..|prefix| + 5] == "<?xml";
    }
    ContainsIff("<?xml", prefix);
    forall j | 0 <= j < |prefix| ensures !OccursAt("<?xml", s, j) {
      if j + 5 <= |prefix| {
        assert s[j..j + 5] == prefix[j..j + 5];
        assert !OccursAt("<?xml", prefix, j);
      } else {
        DeclarationDoesNotOverlap(s, |prefix|, j);
      }
    }
    assert XmlStart(s) == |prefix|;
    assert s[|prefix|..] == "<?xml" + rest;
  }

  /** "<?xml" cannot start inside an occurrence that begins later: '<' does
      not recur in it. */
  lemma DeclarationDoesNotOverlap(s: string, p: nat, j: nat)
    requires OccursAt("<?xml", s, p) && j < p < j + 5
    ensures !OccursAt("<?xml", s, j)
  {
    assert s[p] == '<';
    if j + 5 <= |s| {
      assert s[j..j + 5][p - j] == s[p];
      assert "<?xml"[p - j] != '<';
    }
  }

  /** Parse the XML text; a ParseError becomes an ADBError with a prefix. */
  function ParseXml(w: World, xml: string, prefix: string): Result<Node> {
    match w.parse(xml)
    case Ok(root) => Ok(root)
    case Err(e) => Fail(prefix + e.msg)
  }

  // ---------------------------------------------------------------- find_elements

  /** The attribute search over the "node" elements. */
  function XmlSearch(root: Node, q: Query, limit: int): Result<seq<Element>> {
    var nodes := Iter(root, "node");
    SearchFrom(nodes, ParseEach(nodes), q, Max(limit, 1))
  }

  /** The XML half of `find_elements`: an XPath query when one is given,
      the attribute search otherwise. */
  function XmlFind(dev: Option<U2Handle>, w: World, q: Query, xpath: string, limit: int): Result<seq<Element>> {
    var xml :- HierarchyXml(dev, w);
    XmlFindIn(w, xml, q, xpath, limit)
  }

  /** The search once the hierarchy XML is at hand. */
  function XmlFindIn(w: World, xml: string, q: Query, xpath: string, limit: int): Result<seq<Element>> {
    var root :- ParseXml(w, xml, "Failed to parse UI hierarchy: ");
    if xpath != "" then
      var found :- w.findAll(root, SearchPath(xpath));
      Collect(Take(ParseEach(found), Max(limit, 1)))
    else XmlSearch(root, q, limit)
  }

  /** `find_elements` once the connection is settled: the uiautomator2
      search when connected, without an XPath, and it does not raise; the
      XML search otherwise. */
  function FindSpec(dev: Option<U2Handle>, w: World, q: Query, xpath: string, limit: int): Result<seq<Element>> {
    if dev.Some? && xpath == "" && !q.AnySet() then Ok([])
    else if dev.Some? && xpath == "" && Collect(Take(w.u2Find(Kwargs(q)), Max(limit, 1))).Ok? then
      Collect(Take(w.u2Find(Kwargs(q)), Max(limit, 1)))
    else XmlFind(dev, w, q, xpath, limit)
  }

  /** Every search returns at most max(limit, 1) elements. */
  lemma FindSpecLimit(dev: Option<U2Handle>, w: World, q: Query, xpath: string, limit: int)
    ensures FindSpec(dev, w, q, xpath, limit).Ok? ==> |FindSpec(dev, w, q, xpath, limit).value| <= Max(limit, 1)
  {
    XmlFindLimit(dev, w, q, xpath, limit);
  }

  lemma XmlFindLimit(dev: Option<U2Handle>, w: World, q: Query, xpath: string, limit: int)
    ensures XmlFind(dev, w, q, xpath, limit).Ok? ==> |XmlFind(dev, w, q, xpath, limit).value| <= Max(limit, 1)
  {
    var xml := HierarchyXml(dev, w);
    if xml.Ok? {
      XmlFindInLimit(w, xml.value, q, xpath, limit);
    }
  }

  lemma XmlFindInLimit(w: World, xml: string, q: Query, xpath: string, limit: int)
    ensures XmlFindIn(w, xml, q, xpath, limit).Ok? ==> |XmlFindIn(w, xml, q, xpath, limit).value| <= Max(limit, 1)
  {
    var root := ParseXml(w, xml, "Failed to parse UI hierarchy: ");
    if root.Ok? && xpath == "" {
      var nodes := Iter(root.value, "node");
      SearchFromAtMost(nodes, ParseEach(nodes), q, Max(limit, 1));
    }
  }

  /** The XML attribute search returns, in document order, the parsed forms
      of "node" elements the selector accepts. */
  lemma XmlSearchInOrder(root: Node, q: Query, limit: int)
    requires XmlSearch(root, q, limit).Ok?
    ensures var els := XmlSearch(root, q, limit).value;
      exists sel: seq<Node> :: Subseq(sel, Iter(root, "node")) && |sel| == |els|
        && forall k :: 0 <= k < |sel| ==> sel[k].tag == "node" && Selects(q, sel[k]) && ParseElement(sel[k]) == Ok(els[k])
  {
    var nodes := Iter(root, "node");
    var els := XmlSearch(root, q, limit).value;
    var sel := SearchInOrder(nodes, ParseElement, q, Max(limit, 1));
    forall k | 0 <= k < |sel| ensures sel[k].tag == "node" {
      SubseqIn(sel, nodes, sel[k]);
    }
  }

  /** The node-by-node search returns f of some of the accepted nodes, in
      their order among the nodes. */
  lemma SearchInOrder(nodes: seq<Node>, f: Node -> Result<Element>, q: Query, m: nat) returns (sel: seq<Node>)
    requires SearchFrom(nodes, MapNodes(nodes, f), q, m).Ok?
    ensures var els := SearchFrom(nodes, MapNodes(nodes, f), q, m).value;
      Subseq(sel, nodes) && |sel| == |els|
      && forall k :: 0 <= k < |sel| ==> Selects(q, sel[k]) && f(sel[k]) == Ok(els[k])
  {
    var all := Selected(nodes, q);
    sel := Take(all, m);
    var items := Take(MapNodes(all, f), m);
    var els := SearchFrom(nodes, MapNodes(nodes, f), q, m).value;
    SearchFromPicked(nodes, MapNodes(nodes, f), q, m);
    PickedMap(nodes, f, q);
    SelectedSpec(nodes, q);
    SubseqPrefix(all, nodes, |sel|);
    CollectSpec(items);
    forall k | 0 <= k < |sel|
      ensures Selects(q, sel[k]) && f(sel[k]) == Ok(els[k])
    {
      assert sel[k] in all;
      assert items[k] == f(sel[k]);
    }
  }

  /** Connected, with no XPath and no predicate, the native search returns
      nothing; without any predicate the XML attribute search returns
      nothing either. */
  lemma EmptySelectorFindsNothing(dev: Option<U2Handle>, w: World, q: Query, limit: int, root: Node)
    requires !q.AnySet()
    ensures dev.Some? ==> FindSpec(dev, w, q, "", limit) == Ok([])
    ensures XmlSearch(root, q, limit) == Ok([])
  {
    var nodes := Iter(root, "node");
    SearchFromNone(nodes, ParseEach(nodes), q, Max(limit, 1));
  }

  /** The native backend is not asked when an XPath is given or when there
      is no connection, and a native error falls back to the XML search with
      the same query. */
  lemma NativeChoice(dev: Option<U2Handle>, w: World, q: Query, xpath: string, limit: int)
    ensures xpath != "" || dev.None? ==> FindSpec(dev, w, q, xpath, limit) == XmlFind(dev, w, q, xpath, limit)
    ensures dev.Some? && xpath == "" && q.AnySet() && Collect(Take(w.u2Find(Kwargs(q)), Max(limit, 1))).Err? ==>
      FindSpec(dev, w, q, xpath, limit) == XmlFind(dev, w, q, xpath, limit)
  {
  }

  /** The first result, or None. */
  function FirstOf(r: Result<seq<Element>>): (f: Result<Option<Element>>)
    ensures f.Ok? <==> r.Ok?
    ensures f.Ok? && f.value.Some? ==> r.value != [] && f.value.value == r.value[0]
    ensures f.Ok? && f.value.None? ==> r.value == []
  {
    if r.Err? then Err(r.exn)
    else if r.value == [] then Ok(None)
    else Ok(Some(r.value[0]))
  }

  // ---------------------------------------------------------------- get_bounds_only

  /** One entry of `get_bounds_only`. */
  datatype BoundsEntry = BoundsEntry(text: string, resourceId: string, bounds: Bounds, clickable: bool)

  predicate HasSize(e: Element) {
    e.bounds.right > e.bounds.left && e.bounds.bottom > e.bounds.top
  }

  /** The entry of an element: its text cut to 50 characters. */
  function Entry(e: Element): (b: BoundsEntry)
    ensures |b.text| <= 50 && IsPrefix(b.text, e.text)
    ensures |e.text| <= 50 ==> b.text == e.text
    ensures b.resourceId == e.resourceId && b.bounds == e.bounds && b.clickable == e.clickable
  {
    BoundsEntry(e.text[..Min(50, |e.text|)], e.resourceId, e.bounds, e.clickable)
  }

  /** The entries of the elements that have a size, in order. */
  function BoundsView(els: seq<Element>): (r: seq<BoundsEntry>)
    ensures |r| <= |els|
  {
    if els == [] then []
    else (if HasSize(els[0]) then [Entry(els[0])] else []) + BoundsView(els[1..])
  }

  /** An entry is listed exactly when some element with a size gives it;
      so every entry has a size. */
  lemma {:induction false} BoundsViewIff(els: seq<Element>, x: BoundsEntry)
    ensures x in BoundsView(els) <==> exists k :: 0 <= k < |els| && HasSize(els[k]) && Entry(els[k]) == x
    ensures x in BoundsView(els) ==> x.bounds.right > x.bounds.left && x.bounds.bottom > x.bounds.top
  {
    if els != [] {
      BoundsViewIff(els[1..], x);
      if exists k :: 0 <= k < |els| && HasSize(els[k]) && Entry(els[k]) == x {
        var k :| 0 <= k < |els| && HasSize(els[k]) && Entry(els[k]) == x;
        if k > 0 {
          assert els[1..][k - 1] == els[k];
        }
      }
      if exists k :: 0 <= k < |els| - 1 && HasSize(els[1..][k]) && Entry(els[1..][k]) == x {
        var k :| 0 <= k < |els| - 1 && HasSize(els[1..][k]) && Entry(els[1..][k]) == x;
        assert els[k + 1] == els[1..][k];
      }
    }
  }

  // ---------------------------------------------------------------- polling

  /** The number of find attempts of the polling loop: ceil(timeout/poll). */
  function PollCount(timeout: int, poll: int): (n: nat)
    requires poll > 0
  {
    if timeout <= 0 then 0 else (timeout + poll - 1) / poll
  }

  /** `elapsed = a * poll` is below the timeout exactly for the first
      PollCount attempts. */
  lemma PollCountIff(a: nat, timeout: int, poll: int)
    requires poll > 0
    ensures a * poll < timeout <==> a < PollCount(timeout, poll)
  {
    if timeout > 0 {
      var c := PollCount(timeout, poll);
      assert c * poll <= timeout + poll - 1 < c * poll + poll;
      if a < c {
        assert a * poll <= (c - 1) * poll by {
          MulMono(a, c - 1, poll);
        }
      } else {
        MulMono(c, a, poll);
      }
    } else {
      assert a * poll >= 0;
    }
  }

  /** The value of `elapsed` after a attempts: poll added a times. */
  function Elapsed(a: nat, poll: int): int {
    if a == 0 then 0 else Elapsed(a - 1, poll) + poll
  }

  lemma {:induction false} ElapsedIsProduct(a: nat, poll: int)
    ensures Elapsed(a, poll) == a * poll
  {
    if a > 0 {
      ElapsedIsProduct(a - 1, poll);
    }
  }

  /** The loop test `elapsed < timeout` passes for the first PollCount attempts. */
  lemma ElapsedIff(a: nat, timeout: int, poll: int)
    requires poll > 0
    ensures Elapsed(a, poll) < timeout <==> a < PollCount(timeout, poll)
  {
    ElapsedIsProduct(a, poll);
    PollCountIff(a, timeout, poll);
  }

  /** As written, a non-positive interval never moves the elapsed time up to
      a positive timeout: the loop test passes before every attempt, so a
      screen that never shows the element keeps the loop running. */
  lemma {:induction false} PollingNeverEnds(a: nat, timeout: int, poll: int)
    requires poll <= 0 && timeout > 0
    ensures Elapsed(a, poll) < timeout
  {
    if a > 0 {
      PollingNeverEnds(a - 1, timeout, poll);
    }
  }

  /** The interval the polling waits: the given one, raised to 1 ms when it
      is not positive, so that the timeout is reached. */
  function WaitInterval(poll: int): (step: int)
    ensures step > 0
    ensures poll > 0 ==> step == poll
  {
    if poll > 0 then poll else 1
  }

  /** With the interval raised, the loop test fails after PollCount
      attempts whatever interval is asked for. */
  lemma WaitIntervalEnds(a: nat, timeout: int, poll: int)
    ensures Elapsed(a, WaitInterval(poll)) < timeout <==> a < PollCount(timeout, WaitInterval(poll))
    ensures Elapsed(PollCount(timeout, WaitInterval(poll)), WaitInterval(poll)) >= timeout
  {
    ElapsedIff(a, timeout, WaitInterval(poll));
    ElapsedIff(PollCount(timeout, WaitInterval(poll)), timeout, WaitInterval(poll));
  }

  /** One more interval: the elapsed time and the loop test after it. */
  lemma ElapsedStep(a: nat, timeout: int, poll: int)
    requires poll > 0 && a > 0
    ensures Elapsed(a, poll) == Elapsed(a - 1, poll) + poll
    ensures Elapsed(a, poll) < timeout <==> a < PollCount(timeout, poll)
  {
    ElapsedIff(a, timeout, poll);
  }

  lemma MulMono(a: int, b: int, p: int)
    requires a <= b && p > 0
    ensures a * p <= b * p
  {
    assert b * p - a * p == (b - a) * p;
  }

  /** The selector of `wait_for_element` (text and resource id only). */
  function WaitQuery(text: string, resourceId: string): Query {
    Query(text, resourceId, "", "")
  }

  /** The polling fallback of `wait_for_element`: the connection held when
      polling starts, whether the backend is wanted, the outcome of the
      connection attempt of each attempt, and what the `find_element` of
      attempt i answers given the connection it holds. */
  datatype Polling = Polling(
    start: Option<U2Handle>, useU2: bool,
    connects: nat -> Result<U2Handle>,
    find: (Option<U2Handle>, nat) -> Result<Option<Element>>)
  {
    /** The connection held before attempt i. */
    function DevBefore(i: nat): Option<U2Handle> {
      if i == 0 then start else Connect(DevBefore(i - 1), useU2, connects(i - 1))
    }

    /** Attempt i: a `find_element` with the connection settled first. */
    function Attempt(i: nat): Result<Option<Element>> {
      find(DevBefore(i + 1), i)
    }

    /** Attempts j, j+1, ... while fewer than j + n are made: the first hit
        or error ends it. Gives the outcome and the number of attempts. */
    function Run(j: nat, n: nat): (p: (Result<Option<Element>>, nat))
      decreases n
      ensures j <= p.1 <= j + n
    {
      if n == 0 then (Ok(None), j)
      else if Attempt(j).Err? || Attempt(j).value.Some? then (Attempt(j), j + 1)
      else Run(j + 1, n - 1)
    }
  }

  /** The polling of `wait_for_element` on the screens `worlds`. */
  function WaitPolling(start: Option<U2Handle>, useU2: bool, worlds: nat -> World, q: Query): Polling {
    Polling(start, useU2, (i: nat) => worlds(i).connect, (d: Option<U2Handle>, i: nat) => FirstOf(FindSpec(d, worlds(i), q, "", 1)))
  }

  /** p polls the screens `worlds` for q: its connection outcomes and its
      attempts are those of the screens. */
  ghost predicate Drives(p: Polling, worlds: nat -> World, q: Query) {
    && (forall i: nat :: p.connects(i) == worlds(i).connect)
    && forall d: Option<U2Handle>, i: nat {:trigger FindSpec(d, worlds(i), q, "", 1)} ::
         p.find(d, i) == FirstOf(FindSpec(d, worlds(i), q, "", 1))
  }

  lemma WaitPollingDrives(start: Option<U2Handle>, useU2: bool, worlds: nat -> World, q: Query)
    ensures Drives(WaitPolling(start, useU2, worlds, q), worlds, q)
  {
  }

  /** An attempt that finds nothing hands over to the next one. */
  lemma RunStep(p: Polling, n: nat, j: nat, outcome: Result<Option<Element>>)
    requires j < n && p.Run(0, n) == p.Run(j, n - j) && outcome == p.Attempt(j)
    requires !(outcome.Err? || outcome.value.Some?)
    ensures p.Run(0, n) == p.Run(j + 1, n - (j + 1))
  {
  }

  /** Polling answers with the outcome of its last attempt after every
      earlier attempt found nothing, or with None after all n attempts
      found nothing. */
  lemma {:induction false} PollFirstHit(p: Polling, j: nat, n: nat)
    ensures var r := p.Run(j, n);
      && (forall i :: j <= i < r.1 - 1 ==> p.Attempt(i) == Ok(None))
      && (r.0 == Ok(None) ==> r.1 == j + n && forall i :: j <= i < j + n ==> p.Attempt(i) == Ok(None))
      && (r.0 != Ok(None) ==> r.1 > j && r.0 == p.Attempt(r.1 - 1))
    decreases n
  {
    if n > 0 && !(p.Attempt(j).Err? || p.Attempt(j).value.Some?) {
      PollFirstHit(p, j + 1, n - 1);
    }
  }

  // ---------------------------------------------------------------- the adapter

  class UiAutomatorAdapter {
    /** Whether the uiautomator2 backend is wanted at all. */
    const useU2: bool
    /** The cached uiautomator2 connection. */
    var u2Device: Option<U2Handle>
    /** The outcome of the last connection attempt, None before any. */
    var u2Available: Option<bool>

    constructor(useU2: bool)
      ensures this.useU2 == useU2 && u2Device == None && u2Available == None
    {
      this.useU2 := useU2;
      u2Device := None;
      u2Available := None;
    }

    /** `_get_u2_device`: the cached connection, or a new attempt when the
        backend is wanted; a failed attempt is not cached and is made again
        on the next call. */
    method GetU2Device(connect: Result<U2Handle>) returns (d: Option<U2Handle>)
      modifies this
      ensures d == Connect(old(u2Device), useU2, connect) && u2Device == d
      ensures u2Available == (if old(u2Device).Some? || !useU2 then old(u2Available) else Some(connect.Ok?))
    {
      if u2Device.Some? {
        return u2Device;
      }
      if !useU2 {
        return None;
      }
      match connect
      case Ok(h) =>
        u2Device := Some(h);
        u2Available := Some(true);
        d := u2Device;
      case Err(_) =>
        u2Available := Some(false);
        d := None;
    }

    /** `get_hierarchy_xml`. */
    method GetHierarchyXml(w: World) returns (r: Result<string>)
      modifies this
      ensures u2Device == Connect(old(u2Device), useU2, w.connect)
      ensures r == HierarchyXml(u2Device, w)
    {
      var device := GetU2Device(w.connect);
      if device.Some? && w.u2Dump.Ok? {
        return w.u2Dump;
      }
      r := DumpFromShell(w.shell("uiautomator dump /dev/tty"));
    }

    /** `get_all_elements`: every "node" element parsed, in document order. */
    method GetAllElements(w: World) returns (r: Result<seq<Element>>)
      modifies this
      ensures u2Device == Connect(old(u2Device), useU2, w.connect)
      ensures r == AllElements(u2Device, w)
    {
      var xml := GetHierarchyXml(w);
      if xml.Err? {
        return Err(xml.exn);
      }
      var root := ParseXml(w, xml.value, "Failed to parse UI hierarchy XML: ");
      if root.Err? {
        return Err(root.exn);
      }
      r := CollectAll(ParseEach(Iter(root.value, "node")));
    }

    /** `get_bounds_only`: the entries of the elements that have a size. */
    method GetBoundsOnly(w: World) returns (r: Result<seq<BoundsEntry>>)
      modifies this
      ensures u2Device == Connect(old(u2Device), useU2, w.connect)
      ensures var all := AllElements(u2Device, w);
        r == if all.Err? then Err(all.exn) else Ok(BoundsView(all.value))
      ensures r.Ok? ==> forall x :: x in r.value ==> x.bounds.right > x.bounds.left && x.bounds.bottom > x.bounds.top
    {
      var all := GetAllElements(w);
      if all.Err? {
        return Err(all.exn);
      }
      r := Ok(BoundsView(all.value));
      forall x | x in r.value
        ensures x.bounds.right > x.bounds.left && x.bounds.bottom > x.bounds.top
      {
        BoundsViewIff(all.value, x);
      }
    }

    /** `find_elements`. */
    method FindElements(w: World, q: Query, xpath: string, limit: int) returns (r: Result<seq<Element>>)
      modifies this
      ensures u2Device == Connect(old(u2Device), useU2, w.connect)
      ensures r == FindSpec(u2Device, w, q, xpath, limit)
    {
      var device := GetU2Device(w.connect);
      if device.Some? && xpath == "" {
        var kwargs := Kwargs(q);
        if kwargs == [] {
          return Ok([]);
        }
        var native := CollectUpTo(w.u2Find(kwargs), limit);
        if native.Ok? {
          return native;
        }
      }
      var xml := GetHierarchyXml(w);
      if xml.Err? {
        return Err(xml.exn);
      }
      var root := ParseXml(w, xml.value, "Failed to parse UI hierarchy: ");
      if root.Err? {
        return Err(root.exn);
      }
      if xpath != "" {
        var found := w.findAll(root.value, SearchPath(xpath));
        if found.Err? {
          return Err(found.exn);
        }
        r := CollectUpTo(ParseEach(found.value), limit);
      } else {
        var nodes := Iter(root.value, "node");
        r := MatchNodes(nodes, ParseEach(nodes), q, limit);
      }
    }

    /** `find_element`: the first result of a search with limit 1. */
    method FindElement(w: World, q: Query, xpath: string) returns (r: Result<Option<Element>>)
      modifies this
      ensures u2Device == Connect(old(u2Device), useU2, w.connect)
      ensures r == FirstOf(FindSpec(u2Device, w, q, xpath, 1))
    {
      var elements := FindElements(w, q, xpath, 1);
      r := FirstOf(elements);
    }

    /** `wait_for_element`: the uiautomator2 wait when connected and it does
        not raise; otherwise polling, one `find_element` per interval while
        the elapsed time is below the timeout. `worlds(i)` is the screen at
        attempt i, and the count returned is the number of find attempts.
        The interval is WaitInterval(poll), so a non-positive one polls
        every millisecond instead of forever. */
    method WaitForElement(worlds: nat -> World, text: string, resourceId: string, timeout: int, poll: int)
      returns (r: Result<Option<Element>>, attempts: nat)
      modifies this
      ensures attempts <= PollCount(timeout, WaitInterval(poll))
      ensures var d := Connect(old(u2Device), useU2, worlds(0).connect);
        var native := worlds(0).u2Wait(Kwargs(WaitQuery(text, resourceId)), timeout);
        if d.Some? && native.Ok? then r == native && attempts == 0
        else (r, attempts) == WaitPolling(d, useU2, worlds, WaitQuery(text, resourceId)).Run(0, PollCount(timeout, WaitInterval(poll)))
    {
      var device := GetU2Device(worlds(0).connect);
      var q := WaitQuery(text, resourceId);
      if device.Some? {
        var native := worlds(0).u2Wait(Kwargs(q), timeout);
        if native.Ok? {
          return native, 0;
        }
      }
      ghost var p := WaitPolling(Connect(old(u2Device), useU2, worlds(0).connect), useU2, worlds, q);
      WaitPollingDrives(p.start, useU2, worlds, q);
      r, attempts := Poll(p, worlds, q, timeout, WaitInterval(poll));
    }

    /** The polling loop of `wait_for_element`: one `find_element` per
        interval while the elapsed time is below the timeout. */
    method Poll(ghost p: Polling, worlds: nat -> World, q: Query, timeout: int, poll: int)
      returns (r: Result<Option<Element>>, attempts: nat)
      requires poll > 0 && p.start == u2Device && p.useU2 == useU2 && Drives(p, worlds, q)
      modifies this
      ensures (r, attempts) == p.Run(0, PollCount(timeout, poll))
    {
      ghost var n := PollCount(timeout, poll);
      var elapsed := 0;
      attempts := 0;
      ElapsedIff(0, timeout, poll);
      while elapsed < timeout
        invariant attempts <= n && elapsed == Elapsed(attempts, poll)
        invariant elapsed < timeout <==> attempts < n
        invariant u2Device == p.DevBefore(attempts)
        invariant p.Run(0, n) == p.Run(attempts, n - attempts)
        decreases n - attempts
      {
        var element := PollOnce(p, worlds, q, attempts);
        attempts := attempts + 1;
        if element.Err? || element.value.Some? {
          return element, attempts;
        }
        RunStep(p, n, attempts - 1, element);
        ElapsedStep(attempts, timeout, poll);
        elapsed := elapsed + poll;
      }
      r := Ok(None);
    }

    /** Attempt i of the polling: one `find_element` on screen i. */
    method PollOnce(ghost p: Polling, worlds: nat -> World, q: Query, i: nat) returns (element: Result<Option<Element>>)
      requires p.useU2 == useU2 && Drives(p, worlds, q) && u2Device == p.DevBefore(i)
      modifies this
      ensures element == p.Attempt(i) && u2Device == p.DevBefore(i + 1)
    {
      element := FindElement(worlds(i), q, "");
    }
  }

  // ---------------------------------------------------------------- the loops

  /** A loop that appends each item's value, re-raises an item's error and
      stops once max(limit, 1) values are held. */
  method CollectUpTo(items: seq<Result<Element>>, limit: int) returns (r: Result<seq<Element>>)
    ensures r == Collect(Take(items, Max(limit, 1)))
  {
    ghost var m := Max(limit, 1);
    var results: seq<Element> := [];
    var i := 0;
    assert items[0..] == items;
    PrefixedEmpty(Collect(Take(items, m)));
    while i < |items|
      invariant 0 <= i <= |items| && |results| == i < m
      invariant Collect(Take(items, m)) == Prefixed(results, Collect(Take(items[i..], m - i)))
    {
      CollectTakeStep(items[i..], m - i);
      assert items[i..][1..] == items[i + 1..];
      match items[i]
      case Err(e) =>
        return Err(e);
      case Ok(x) =>
        PrefixedTwice(results, [x], Collect(Take(items[i + 1..], m - i - 1)));
        results := results + [x];
        if |results| >= limit {
          assert Take(items[i + 1..], 0) == [];
          assert results + [] == results;
          return Ok(results);
        }
      i := i + 1;
    }
    assert Take(items[i..], m - i) == [];
    assert results + [] == results;
    r := Ok(results);
  }

  /** A loop that appends every item's value and re-raises the first error. */
  method CollectAll(items: seq<Result<Element>>) returns (r: Result<seq<Element>>)
    ensures r == Collect(items)
  {
    var results: seq<Element> := [];
    var i := 0;
    assert items[0..] == items;
    PrefixedEmpty(Collect(items));
    while i < |items|
      invariant 0 <= i <= |items|
      invariant Collect(items) == Prefixed(results, Collect(items[i..]))
    {
      assert items[i..][0] == items[i] && items[i..][1..] == items[i + 1..];
      match items[i]
      case Err(e) =>
        return Err(e);
      case Ok(x) =>
        PrefixedTwice(results, [x], Collect(items[i + 1..]));
        results := results + [x];
      i := i + 1;
    }
    assert results + [] == results;
    r := Ok(results);
  }

  /** The attribute search over a sequence of nodes, node by node:
      accepted nodes are parsed until m results are held, and a parse error
      ends it. `parsed[k]` is the parse of `nodes[k]`, consulted only when
      the search reaches an accepted node. */
  function SearchFrom(ns: seq<Node>, parsed: seq<Result<Element>>, q: Query, m: nat): Result<seq<Element>>
    requires |parsed| == |ns|
    decreases |ns|
  {
    if ns == [] || m == 0 then Ok([])
    else if !Selects(q, ns[0]) then SearchFrom(ns[1..], parsed[1..], q, m)
    else
      match parsed[0]
      case Err(e) => Err(e)
      case Ok(x) => Prefixed([x], SearchFrom(ns[1..], parsed[1..], q, m - 1))
  }

  /** The search holds at most m results. */
  lemma {:induction false} SearchFromAtMost(ns: seq<Node>, parsed: seq<Result<Element>>, q: Query, m: nat)
    requires |parsed| == |ns|
    ensures SearchFrom(ns, parsed, q, m).Ok? ==> |SearchFrom(ns, parsed, q, m).value| <= m
    decreases |ns|
  {
    if ns != [] && m > 0 {
      if !Selects(q, ns[0]) {
        SearchFromAtMost(ns[1..], parsed[1..], q, m);
      } else if parsed[0].Ok? {
        SearchFromAtMost(ns[1..], parsed[1..], q, m - 1);
      }
    }
  }

  /** Without any predicate nothing is accepted, so nothing is parsed. */
  lemma {:induction false} SearchFromNone(ns: seq<Node>, parsed: seq<Result<Element>>, q: Query, m: nat)
    requires |parsed| == |ns| && !q.AnySet()
    ensures SearchFrom(ns, parsed, q, m) == Ok([])
    decreases |ns|
  {
    if ns != [] && m > 0 {
      SearchFromNone(ns[1..], parsed[1..], q, m);
    }
  }

  /** The parse results of the accepted nodes, in order. */
  function Picked(ns: seq<Node>, parsed: seq<Result<Element>>, q: Query): seq<Result<Element>>
    requires |parsed| == |ns|
  {
    if ns == [] then []
    else (if Selects(q, ns[0]) then [parsed[0]] else []) + Picked(ns[1..], parsed[1..], q)
  }

  /** The node-by-node search collects the first m picked results. */
  lemma {:induction false} SearchFromPicked(ns: seq<Node>, parsed: seq<Result<Element>>, q: Query, m: nat)
    requires |parsed| == |ns|
    ensures SearchFrom(ns, parsed, q, m) == Collect(Take(Picked(ns, parsed, q), m))
    decreases |ns|
  {
    var all := Picked(ns, parsed, q);
    if m == 0 {
      assert Take(all, 0) == [];
    } else if ns != [] {
      var rest := Picked(ns[1..], parsed[1..], q);
      if Selects(q, ns[0]) {
        SearchFromPicked(ns[1..], parsed[1..], q, m - 1);
        assert all == [parsed[0]] + rest;
        assert all[1..] == rest;
        CollectTakeStep(all, m);
      } else {
        SearchFromPicked(ns[1..], parsed[1..], q, m);
        assert all == rest;
      }
    }
  }

  /** Picking from the results for all nodes is computing the results for
      the accepted nodes. */
  lemma {:induction false} PickedMap(ns: seq<Node>, f: Node -> Result<Element>, q: Query)
    ensures Picked(ns, MapNodes(ns, f), q) == MapNodes(Selected(ns, q), f)
  {
    if ns != [] {
      PickedMap(ns[1..], f, q);
      MapNodesCons(ns, f);
      var all := MapNodes(ns, f);
      assert all[0] == f(ns[0]) && all[1..] == MapNodes(ns[1..], f);
      var sel := Selected(ns, q);
      if Selects(q, ns[0]) {
        assert sel == [ns[0]] + Selected(ns[1..], q);
        MapNodesCons(sel, f);
        assert sel[1..] == Selected(ns[1..], q);
      } else {
        assert sel == Selected(ns[1..], q);
      }
    }
  }

  /** The text test of the loop: a text that differs from the node's text
      may still occur in it, so the test is containment. */
  lemma TextTest(text: string, nodeText: string)
    ensures (nodeText != text && !Contains(text, nodeText)) <==> !Contains(text, nodeText)
  {
    if nodeText == text {
      ContainsSelf(text);
    }
  }

  /** The attribute-matching loop of `find_elements`, check by check as the
      code makes them; `parsed[k]` is `_parse_element(nodes[k])`. */
  method MatchNodes(nodes: seq<Node>, parsed: seq<Result<Element>>, q: Query, limit: int) returns (r: Result<seq<Element>>)
    requires |parsed| == |nodes|
    ensures r == SearchFrom(nodes, parsed, q, Max(limit, 1))
  {
    ghost var m := Max(limit, 1);
    var results: seq<Element> := [];
    var i := 0;
    assert nodes[0..] == nodes && parsed[0..] == parsed;
    PrefixedEmpty(SearchFrom(nodes, parsed, q, m));
    while i < |nodes|
      invariant 0 <= i <= |nodes| && |results| < m
      invariant SearchFrom(nodes, parsed, q, m) == Prefixed(results, SearchFrom(nodes[i..], parsed[i..], q, m - |results|))
    {
      var node := nodes[i];
      assert nodes[i..][0] == node && nodes[i..][1..] == nodes[i + 1..];
      assert parsed[i..][0] == parsed[i] && parsed[i..][1..] == parsed[i + 1..];
      var matches := true;
      if q.text != "" && Attr(node, "text", "") != q.text {
        if !Contains(q.text, Attr(node, "text", "")) {
          matches := false;
        }
      }
      TextTest(q.text, Attr(node, "text", ""));
      if q.resourceId != "" && !Contains(q.resourceId, Attr(node, "resource-id", "")) {
        matches := false;
      }
      if q.className != "" && q.className != Attr(node, "class", "") {
        matches := false;
      }
      if q.contentDesc != "" && !Contains(q.contentDesc, Attr(node, "content-desc", "")) {
        matches := false;
      }
      assert matches && q.AnySet() <==> Selects(q, node);
      if matches && q.AnySet() {
        if parsed[i].Err? {
          return Err(parsed[i].exn);
        }
        ghost var later := SearchFrom(nodes[i + 1..], parsed[i + 1..], q, m - |results| - 1);
        PrefixedTwice(results, [parsed[i].value], later);
        results := results + [parsed[i].value];
        if |results| >= limit {
          assert later == Ok([]);
          assert results + [] == results;
          return Ok(results);
        }
      }
      i := i + 1;
    }
    assert results + [] == results;
    r := Ok(results);
  }
}
