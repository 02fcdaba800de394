/** The visual tools of the server: resolving one element through the
    learned-pattern cache with a direct search as fallback (and learning
    from a direct hit), the multi-element search, the filters of
    `get_bounds`, the pruning of the hierarchy tree in `get_hierarchy`, and
    the module-level screen-recording flag. */
module Visual {
  import opened Base
  import opened Strings
  import opened Adb
  import opened UiAutomator
  import opened Persistence

  // ---------------------------------------------------------------- pattern key

  /** `text or resource_id or content_desc`: the class name and the XPath
      never key a pattern. */
  function PatternKey(q: Query): string {
    FirstNonEmpty([q.text, q.resourceId, q.contentDesc])
  }

  /** The key is the text when there is one, else the resource id, else the
      content description; it is empty exactly when all three are. */
  lemma PatternKeyChoice(q: Query)
    ensures PatternKey(q) == "" <==> q.text == "" && q.resourceId == "" && q.contentDesc == ""
    ensures q.text != "" ==> PatternKey(q) == q.text
    ensures q.text == "" && q.resourceId != "" ==> PatternKey(q) == q.resourceId
    ensures q.text == "" && q.resourceId == "" ==> PatternKey(q) == q.contentDesc
  {
    var xs := [q.text, q.resourceId, q.contentDesc];
    assert xs[0] == q.text && xs[1] == q.resourceId && xs[2] == q.contentDesc;
    if PatternKey(q) != "" {
      var k :| 0 <= k < |xs| && xs[k] == PatternKey(q) && forall j :: 0 <= j < k ==> xs[j] == "";
    }
  }

  // ---------------------------------------------------------------- stored selectors

  /** One stored selector as the cache step uses it: its place in the
      stored list, its confidence (the sort key), and the query it searches
      with, or the exception that building that query raises. */
  datatype Fragment = Fragment(pos: nat, confidence: real, query: Result<Query>)

  /** `data.get("selectors", [])` iterated by `sorted`: a list gives its
      items; an empty string or dict gives nothing; a non-empty string or
      dict yields strings, which have no `get`; other values are not
      iterable, and data that is not a dict has no `get`. */
  function StoredSelectors(data: Value): (r: Result<seq<Value>>)
    ensures r.Ok? <==> data.Dict? && (var s := if "selectors" in data.fields then data.fields["selectors"] else List([]);
      s.List? || s == Str("") || s == Dict(map[]))
  {
    match data
    case Dict(f) =>
      var s := if "selectors" in f then f["selectors"] else List([]);
      (match s
       case List(items) => Ok(items)
       case Str(t) => if t == "" then Ok([]) else Err(Exn(AttributeErr, "'str' object has no attribute 'get'"))
       case Dict(g) => if g == map[] then Ok([]) else Err(Exn(AttributeErr, "'str' object has no attribute 'get'"))
       case _ => Err(Exn(TypeErr, "object is not iterable")))
    case _ => Err(Exn(AttributeErr, "object has no attribute 'get'"))
  }

  /** The sort key `-s.get("confidence", 0)`, kept un-negated: a number (a
      boolean counts as 0 or 1) gives its value, any other confidence cannot
      be negated, and an entry that is not a dict has no `get`. */
  function SortKey(v: Value): (r: Result<real>)
    ensures r.Ok? ==> v.Dict?
    ensures v.Dict? && "confidence" !in v.fields ==> r == Ok(0.0)
    ensures v.Dict? && "confidence" in v.fields && v.fields["confidence"].Num? ==> r == Ok(v.fields["confidence"].n)
  {
    match v
    case Dict(f) =>
      var c := if "confidence" in f then f["confidence"] else Num(0.0);
      (match c
       case Num(n) => Ok(n)
       case Bool(b) => Ok(if b then 1.0 else 0.0)
       case _ => Err(Exn(TypeErr, "bad operand type for unary -")))
    case _ => Err(Exn(AttributeErr, "object has no attribute 'get'"))
  }

  /** A selector argument `s.get(name)` as the XML search uses it: a string
      is the value, a missing or falsy value means "not supplied", and any
      other value fails the substring test. */
  function ArgOf(f: map<string, Value>, name: string): (r: Result<string>)
    ensures name in f && f[name].Str? ==> r == Ok(f[name].s)
    ensures (name !in f || !Truthy(f[name])) ==> r == Ok("")
    ensures r.Err? <==> name in f && Truthy(f[name]) && !f[name].Str?
  {
    if name !in f then Ok("")
    else match f[name]
      case Str(s) => Ok(s)
      case v => if Truthy(v) then Err(Exn(TypeErr, "'in <string>' requires string as left operand")) else Ok("")
  }

  /** The query of `find_element(text=..., resource_id=..., content_desc=...)`
      built from one stored selector; no class name is ever passed. */
  function FragmentQuery(f: map<string, Value>): (r: Result<Query>)
    ensures r.Ok? ==> r.value.className == ""
    ensures r.Ok? <==> ArgOf(f, "text").Ok? && ArgOf(f, "resourceId").Ok? && ArgOf(f, "contentDescription").Ok?
  {
    var text :- ArgOf(f, "text");
    var rid :- ArgOf(f, "resourceId");
    var desc :- ArgOf(f, "contentDescription");
    Ok(Query(text, rid, "", desc))
  }

  function MakeFragment(pos: nat, v: Value): Result<Fragment> {
    var key :- SortKey(v);
    Ok(Fragment(pos, key, FragmentQuery(v.fields)))
  }

  /** `sorted` computes every key before comparing: the first key that
      cannot be computed aborts the sort. */
  function ReadFragments(items: seq<Value>): Result<seq<Fragment>> {
    Collect(seq(|items|, k requires 0 <= k < |items| => MakeFragment(k, items[k])))
  }

  /** Reading succeeds exactly when every entry has a sort key, and each
      fragment remembers where its entry stood. */
  lemma ReadFragmentsSpec(items: seq<Value>)
    ensures ReadFragments(items).Ok? <==> forall k :: 0 <= k < |items| ==> SortKey(items[k]).Ok?
    ensures ReadFragments(items).Ok? ==> |ReadFragments(items).value| == |items| && forall k :: 0 <= k < |items| ==>
      ReadFragments(items).value[k] == Fragment(k, SortKey(items[k]).value, FragmentQuery(items[k].fields))
  {
    var rs := seq(|items|, k requires 0 <= k < |items| => MakeFragment(k, items[k]));
    CollectSpec(rs);
    assert forall k :: 0 <= k < |items| ==> rs[k] == MakeFragment(k, items[k]);
  }

  // ---------------------------------------------------------------- ranking

  /** The order `sorted` gives: a higher confidence first and, the sort
      being stable, the earlier entry first among equal confidences. */
  predicate Before(a: Fragment, b: Fragment) {
    a.confidence > b.confidence || (a.confidence == b.confidence && a.pos < b.pos)
  }

  predicate Ranked(s: seq<Fragment>) {
    forall i, j :: 0 <= i < j < |s| ==> Before(s[i], s[j])
  }

  predicate DistinctPositions(s: seq<Fragment>) {
    forall i, j :: 0 <= i < j < |s| ==> s[i].pos != s[j].pos
  }

  function InsertRanked(x: Fragment, s: seq<Fragment>): (r: seq<Fragment>)
    ensures |r| == |s| + 1
  {
    if s == [] || Before(x, s[0]) then [x] + s else [s[0]] + InsertRanked(x, s[1..])
  }

  /** `sorted(selectors, key=lambda s: -confidence)`, as an insertion sort. */
  function Rank(frs: seq<Fragment>): (r: seq<Fragment>)
    ensures |r| == |frs|
  {
    if frs == [] then [] else InsertRanked(frs[0], Rank(frs[1..]))
  }

  lemma {:induction false} InsertRankedSpec(x: Fragment, s: seq<Fragment>)
    requires Ranked(s) && forall k :: 0 <= k < |s| ==> s[k].pos != x.pos
    ensures Ranked(InsertRanked(x, s))
    ensures multiset(InsertRanked(x, s)) == multiset(s) + multiset{x}
  {
    if s == [] {
    } else if Before(x, s[0]) {
      var r := [x] + s;
      forall i, j | 0 <= i < j < |r| ensures Before(r[i], r[j]) {
        if i == 0 && j > 1 {
          assert Before(s[0], s[j - 1]);
        }
      }
      assert s == [s[0]] + s[1..];
    } else {
      var t := s[1..];
      InsertRankedSpec(x, t);
      var rest := InsertRanked(x, t);
      var r := [s[0]] + rest;
      assert s == [s[0]] + t;
      forall i, j | 0 <= i < j < |r| ensures Before(r[i], r[j]) {
        if i == 0 {
          var y := rest[j - 1];
          assert y in multiset(rest);
          if y != x {
            assert y in multiset(t);
            var k :| 0 <= k < |t| && t[k] == y;
            assert Before(s[0], s[k + 1]);
          }
        } else {
          assert Before(rest[i - 1], rest[j - 1]);
        }
      }
    }
  }

  /** Ranking is a permutation into the order `sorted` produces. */
  lemma {:induction false} RankSpec(frs: seq<Fragment>)
    requires DistinctPositions(frs)
    ensures Ranked(Rank(frs)) && multiset(Rank(frs)) == multiset(frs)
  {
    if frs != [] {
      var t := frs[1..];
      assert DistinctPositions(t) by {
        forall i, j | 0 <= i < j < |t| ensures t[i].pos != t[j].pos {
          assert t[i] == frs[i + 1] && t[j] == frs[j + 1];
        }
      }
      RankSpec(t);
      var r := Rank(t);
      forall k | 0 <= k < |r| ensures r[k].pos != frs[0].pos {
        assert r[k] in multiset(t);
        var j :| 0 <= j < |t| && t[j] == r[k];
        assert t[j] == frs[j + 1];
      }
      InsertRankedSpec(frs[0], r);
      assert frs == [frs[0]] + t;
    }
  }

  // ---------------------------------------------------------------- trying the fragments

  /** Trying the ranked fragments in turn with `find_element`: the first
      element found, nothing when every search comes back empty, and the
      first exception otherwise. */
  function TryFragments(find: Query -> Result<Option<Element>>, frs: seq<Fragment>): Result<Option<Element>> {
    if frs == [] then Ok(None)
    else
      match frs[0].query
      case Err(e) => Err(e)
      case Ok(q) =>
        match find(q)
        case Err(e) => Err(e)
        case Ok(Some(el)) => Ok(Some(el))
        case Ok(None) => TryFragments(find, frs[1..])
  }

  /** A fragment whose search ran and found nothing. */
  predicate Misses(find: Query -> Result<Option<Element>>, f: Fragment) {
    f.query.Ok? && find(f.query.value) == Ok(None)
  }

  /** The element returned is the one found by the first fragment that
      finds anything, all fragments before it having missed; nothing is
      returned exactly when every fragment misses. */
  lemma {:induction false} TryFragmentsSpec(find: Query -> Result<Option<Element>>, frs: seq<Fragment>, e: Element)
    ensures TryFragments(find, frs) == Ok(Some(e)) <==>
      exists k :: 0 <= k < |frs| && frs[k].query.Ok? && find(frs[k].query.value) == Ok(Some(e))
        && forall j :: 0 <= j < k ==> Misses(find, frs[j])
    ensures TryFragments(find, frs) == Ok(None) <==> forall j :: 0 <= j < |frs| ==> Misses(find, frs[j])
  {
    if frs != [] {
      var t := frs[1..];
      TryFragmentsSpec(find, t, e);
      assert forall j :: 0 <= j < |t| ==> t[j] == frs[j + 1];
      if Misses(find, frs[0]) {
        if TryFragments(find, frs) == Ok(Some(e)) {
          var k :| 0 <= k < |t| && t[k].query.Ok? && find(t[k].query.value) == Ok(Some(e))
            && forall j :: 0 <= j < k ==> Misses(find, t[j]);
          assert frs[k + 1] == t[k];
          assert forall j :: 0 <= j < k + 1 ==> Misses(find, frs[j]) by {
            forall j | 0 <= j < k + 1 ensures Misses(find, frs[j]) {
              if j > 0 {
                assert frs[j] == t[j - 1];
              }
            }
          }
        }
        if exists k :: 0 <= k < |frs| && frs[k].query.Ok? && find(frs[k].query.value) == Ok(Some(e))
            && forall j :: 0 <= j < k ==> Misses(find, frs[j]) {
          var k :| 0 <= k < |frs| && frs[k].query.Ok? && find(frs[k].query.value) == Ok(Some(e))
            && forall j :: 0 <= j < k ==> Misses(find, frs[j]);
          assert k > 0;
          assert t[k - 1] == frs[k];
          assert forall j :: 0 <= j < k - 1 ==> Misses(find, t[j]) by {
            forall j | 0 <= j < k - 1 ensures Misses(find, t[j]) {
              assert t[j] == frs[j + 1];
            }
          }
        }
        if forall j :: 0 <= j < |t| ==> Misses(find, t[j]) {
          assert forall j :: 0 <= j < |frs| ==> Misses(find, frs[j]) by {
            forall j | 0 <= j < |frs| ensures Misses(find, frs[j]) {
              if j > 0 {
                assert frs[j] == t[j - 1];
              }
            }
          }
        }
      } else {
        assert !(forall j :: 0 <= j < |frs| ==> Misses(find, frs[j]));
      }
    }
  }

  // ---------------------------------------------------------------- the cache step

  /** The row `get_pattern(current_pkg, pattern_key)` reads. */
  function StoredRow(enabled: bool, m: map<Key, Row>, app: string, key: string): (r: Option<Row>)
    ensures r.Some? <==> enabled && (app, key) in m
  {
    if enabled && (app, key) in m then Some(m[(app, key)]) else None
  }

  /** The cache step of `find_single_element` with the current package,
      the store's state and a search function for the screen: the element
      the ranked stored selectors find, or nothing when there is no key, no
      element pattern, no hit, or any exception (they are all swallowed). */
  function CacheStep(find: Query -> Result<Option<Element>>, current: Result<string>,
                     enabled: bool, m: map<Key, Row>, key: string): Option<Element>
  {
    if key == "" || current.Err? then None
    else match StoredRow(enabled, m, current.value, key)
      case None => None
      case Some(row) =>
        if row.patternType != "element" then None
        else match StoredSelectors(row.data)
          case Err(_) => None
          case Ok(items) =>
            match ReadFragments(items)
            case Err(_) => None
            case Ok(frs) =>
              match TryFragments(find, Rank(frs))
              case Ok(Some(e)) => Some(e)
              case _ => None
  }

  /** A cache hit is the element of the best-ranked stored selector that
      finds one, every better-ranked one having found nothing; no key,
      no current package, or no stored element pattern means no hit. */
  lemma CacheStepSpec(find: Query -> Result<Option<Element>>, current: Result<string>,
                      enabled: bool, m: map<Key, Row>, key: string, e: Element)
    ensures key == "" || current.Err? || !enabled ==> CacheStep(find, current, enabled, m, key) == None
    ensures CacheStep(find, current, enabled, m, key) == Some(e) <==>
      key != "" && current.Ok? && enabled && (current.value, key) in m
      && m[(current.value, key)].patternType == "element"
      && StoredSelectors(m[(current.value, key)].data).Ok?
      && ReadFragments(StoredSelectors(m[(current.value, key)].data).value).Ok?
      && var frs := Rank(ReadFragments(StoredSelectors(m[(current.value, key)].data).value).value);
         exists k :: 0 <= k < |frs| && frs[k].query.Ok? && find(frs[k].query.value) == Ok(Some(e))
           && forall j :: 0 <= j < k ==> Misses(find, frs[j])
  {
    if key != "" && current.Ok? && enabled && (current.value, key) in m {
      var row := m[(current.value, key)];
      if row.patternType == "element" && StoredSelectors(row.data).Ok? {
        var items := StoredSelectors(row.data).value;
        if ReadFragments(items).Ok? {
          TryFragmentsSpec(find, Rank(ReadFragments(items).value), e);
        }
      }
    }
  }

  /** The search function of the cache step: `find_element` with the
      connection `d` on the screen `w`. */
  function Finder(d: Option<U2Handle>, w: World): Query -> Result<Option<Element>> {
    q => FirstOf(FindSpec(d, w, q, "", 1))
  }

  // ---------------------------------------------------------------- learning from a hit

  /** One stored selector of the auto-learned pattern, as written: the
      attribute with its confidence, or null when the attribute is empty. */
  function SeedEntry(name: string, attr: string, confidence: real): Value {
    if attr != "" then Dict(map[name := Str(attr), "confidence" := Num(confidence)]) else Null
  }

  function SeedEntries(e: Element): seq<Value> {
    [SeedEntry("resourceId", e.resourceId, 0.9), SeedEntry("text", e.text, 0.7),
     SeedEntry("contentDescription", e.contentDesc, 0.8)]
  }

  /** The pattern data saved after a direct hit, as written: three entries,
      null for each empty attribute. */
  function SeedData(e: Element): Value {
    Dict(map["selectors" := List(SeedEntries(e))])
  }

  /** As written, a learned pattern for an element lacking any of resource
      id, text or content description can never serve a cache hit: the
      null entry has no sort key and the whole step is abandoned. */
  lemma SeedDataNeverHits(e: Element, find: Query -> Result<Option<Element>>, app: string,
                          m: map<Key, Row>, key: string)
    requires e.resourceId == "" || e.text == "" || e.contentDesc == ""
    requires (app, key) in m && m[(app, key)].data == SeedData(e)
    ensures CacheStep(find, Ok(app), true, m, key) == None
  {
    var items := SeedEntries(e);
    assert StoredSelectors(SeedData(e)) == Ok(items);
    ReadFragmentsSpec(items);
    var k := if e.resourceId == "" then 0 else if e.text == "" then 1 else 2;
    assert items[k] == Null;
    assert SortKey(items[k]).Err?;
  }

  function NotNull(v: Value): bool { !v.Null? }

  /** The pattern data as evidently intended: only the selectors that
      exist, in the same order and with the same confidences. */
  function LearnedData(e: Element): Value {
    Dict(map["selectors" := List(Filter(SeedEntries(e), NotNull))])
  }

  /** The queries the ranked fragments of a pattern search with. */
  function Queries(frs: seq<Fragment>): seq<Result<Query>> {
    seq(|frs|, k requires 0 <= k < |frs| => frs[k].query)
  }

  /** What the intended learned pattern makes the cache try, best first:
      the resource id (0.9), then the content description (0.8), then the
      text (0.7), each only when the element has it. */
  function LearnedQueries(e: Element): seq<Result<Query>> {
    (if e.resourceId != "" then [Ok(Query("", e.resourceId, "", ""))] else [])
    + (if e.contentDesc != "" then [Ok(Query("", "", "", e.contentDesc))] else [])
    + (if e.text != "" then [Ok(Query(e.text, "", "", ""))] else [])
  }

  /** Two ranked sequences with the same fragments are equal: the order
      `sorted` produces is the only ranked permutation. */
  lemma {:induction false} RankedUnique(r: seq<Fragment>, s: seq<Fragment>)
    requires Ranked(r) && Ranked(s) && multiset(r) == multiset(s)
    ensures r == s
  {
    if r == [] {
      assert |s| == |multiset(s)| == 0;
    } else {
      assert s != [] by { assert r[0] in multiset(s); }
      assert r[0] in multiset(s) && s[0] in multiset(r);
      assert r[0] == s[0];
      assert r == [r[0]] + r[1..] && s == [s[0]] + s[1..];
      assert multiset(r) == multiset{r[0]} + multiset(r[1..]);
      assert multiset(s) == multiset{s[0]} + multiset(s[1..]);
      assert multiset(r[1..]) == multiset(r) - multiset{r[0]};
      assert multiset(s[1..]) == multiset(s) - multiset{s[0]};
      RankedUnique(r[1..], s[1..]);
    }
  }

  /** `ReadFragments` on a list whose fragments are known one by one. */
  lemma ReadAll(items: seq<Value>, frs: seq<Fragment>)
    requires |frs| == |items|
    requires forall k :: 0 <= k < |items| ==>
      frs[k].pos == k && SortKey(items[k]) == Ok(frs[k].confidence) && FragmentQuery(items[k].fields) == frs[k].query
    ensures ReadFragments(items) == Ok(frs)
  {
    ReadFragmentsSpec(items);
    assert forall k :: 0 <= k < |items| ==> SortKey(items[k]).Ok?;
    var r := ReadFragments(items).value;
    forall k | 0 <= k < |frs| ensures r[k] == frs[k] {
      assert r[k] == Fragment(k, SortKey(items[k]).value, FragmentQuery(items[k].fields));
    }
    assert r == frs;
  }

  lemma RankOne(x: Fragment)
    ensures Rank([x]) == [x]
  {
    assert [x][1..] == [];
  }

  lemma InsertOne(x: Fragment, y: Fragment)
    ensures InsertRanked(x, [y]) == if Before(x, y) then [x, y] else [y, x]
  {
    assert [y][1..] == [];
  }

  lemma InsertTwo(x: Fragment, y: Fragment, z: Fragment)
    ensures InsertRanked(x, [y, z]) == if Before(x, y) then [x, y, z] else if Before(x, z) then [y, x, z] else [y, z, x]
  {
    assert [y, z][1..] == [z];
    InsertOne(x, z);
  }

  lemma RankTwo(x: Fragment, y: Fragment)
    ensures Rank([x, y]) == if Before(x, y) then [x, y] else [y, x]
  {
    assert [x, y][1..] == [y];
    RankOne(y);
    InsertOne(x, y);
  }

  lemma RankThree(x: Fragment, y: Fragment, z: Fragment)
    ensures Rank([x, y, z]) == InsertRanked(x, if Before(y, z) then [y, z] else [z, y])
  {
    assert [x, y, z][1..] == [y, z];
    RankTwo(y, z);
  }

  /** With the intended data every stored selector has a sort key, and the
      cache tries exactly the element's own attributes in confidence order. */
  lemma LearnedDataRanks(e: Element)
    ensures StoredSelectors(LearnedData(e)).Ok?
    ensures ReadFragments(StoredSelectors(LearnedData(e)).value).Ok?
    ensures Queries(Rank(ReadFragments(StoredSelectors(LearnedData(e)).value).value)) == LearnedQueries(e)
  {
    if e.resourceId != "" {
      LearnedRanksWithId(e);
    } else {
      LearnedRanksWithoutId(e);
    }
  }

  lemma LearnedRanksWithId(e: Element)
    requires e.resourceId != ""
    ensures StoredSelectors(LearnedData(e)).Ok?
    ensures ReadFragments(StoredSelectors(LearnedData(e)).value).Ok?
    ensures Queries(Rank(ReadFragments(StoredSelectors(LearnedData(e)).value).value)) == LearnedQueries(e)
  {
    var a := SeedEntry("resourceId", e.resourceId, 0.9);
    var b := SeedEntry("text", e.text, 0.7);
    var c := SeedEntry("contentDescription", e.contentDesc, 0.8);
    var qa := Ok(Query("", e.resourceId, "", ""));
    var qb := Ok(Query(e.text, "", "", ""));
    var qc := Ok(Query("", "", "", e.contentDesc));
    LearnedItems(e);
    if e.resourceId != "" { SeedEntryReads("resourceId", e.resourceId, 0.9); }
    if e.text != "" { SeedEntryReads("text", e.text, 0.7); }
    if e.contentDesc != "" { SeedEntryReads("contentDescription", e.contentDesc, 0.8); }
    if e.text != "" && e.contentDesc != "" {
      LearnedRanksAll(e);
    } else if e.resourceId != "" && e.text != "" && e.contentDesc == "" {
      assert StoredSelectors(LearnedData(e)).value == [a, b];
      ReadAll([a, b], [Fragment(0, 0.9, qa), Fragment(1, 0.7, qb)]);
      RankTwo(Fragment(0, 0.9, qa), Fragment(1, 0.7, qb));
      assert Rank([Fragment(0, 0.9, qa), Fragment(1, 0.7, qb)]) == [Fragment(0, 0.9, qa), Fragment(1, 0.7, qb)];
      assert Queries([Fragment(0, 0.9, qa), Fragment(1, 0.7, qb)]) == [qa, qb];
    } else if e.resourceId != "" && e.text == "" && e.contentDesc != "" {
      assert StoredSelectors(LearnedData(e)).value == [a, c];
      ReadAll([a, c], [Fragment(0, 0.9, qa), Fragment(1, 0.8, qc)]);
      RankTwo(Fragment(0, 0.9, qa), Fragment(1, 0.8, qc));
      assert Rank([Fragment(0, 0.9, qa), Fragment(1, 0.8, qc)]) == [Fragment(0, 0.9, qa), Fragment(1, 0.8, qc)];
      assert Queries([Fragment(0, 0.9, qa), Fragment(1, 0.8, qc)]) == [qa, qc];
    } else if e.resourceId != "" && e.text == "" && e.contentDesc == "" {
      assert StoredSelectors(LearnedData(e)).value == [a];
      ReadAll([a], [Fragment(0, 0.9, qa)]);
      RankOne(Fragment(0, 0.9, qa));
      assert Rank([Fragment(0, 0.9, qa)]) == [Fragment(0, 0.9, qa)];
      assert Queries([Fragment(0, 0.9, qa)]) == [qa];
    }
  }

  lemma LearnedRanksAll(e: Element)
    requires e.resourceId != "" && e.text != "" && e.contentDesc != ""
    ensures StoredSelectors(LearnedData(e)).Ok?
    ensures ReadFragments(StoredSelectors(LearnedData(e)).value).Ok?
    ensures Queries(Rank(ReadFragments(StoredSelectors(LearnedData(e)).value).value)) == LearnedQueries(e)
  {
    var a := SeedEntry("resourceId", e.resourceId, 0.9);
    var b := SeedEntry("text", e.text, 0.7);
    var c := SeedEntry("contentDescription", e.contentDesc, 0.8);
    var qa := Ok(Query("", e.resourceId, "", ""));
    var qb := Ok(Query(e.text, "", "", ""));
    var qc := Ok(Query("", "", "", e.contentDesc));
    LearnedItems(e);
    SeedEntryReads("resourceId", e.resourceId, 0.9);
    SeedEntryReads("text", e.text, 0.7);
    SeedEntryReads("contentDescription", e.contentDesc, 0.8);
    assert StoredSelectors(LearnedData(e)).value == [a, b, c];
    ReadAll([a, b, c], [Fragment(0, 0.9, qa), Fragment(1, 0.7, qb), Fragment(2, 0.8, qc)]);
    RankThree(Fragment(0, 0.9, qa), Fragment(1, 0.7, qb), Fragment(2, 0.8, qc));
    InsertTwo(Fragment(0, 0.9, qa), Fragment(2, 0.8, qc), Fragment(1, 0.7, qb));
    assert Rank([Fragment(0, 0.9, qa), Fragment(1, 0.7, qb), Fragment(2, 0.8, qc)]) == [Fragment(0, 0.9, qa), Fragment(2, 0.8, qc), Fragment(1, 0.7, qb)];
    assert Queries([Fragment(0, 0.9, qa), Fragment(2, 0.8, qc), Fragment(1, 0.7, qb)]) == [qa, qc, qb];
  }

  lemma LearnedRanksWithoutId(e: Element)
    requires e.resourceId == ""
    ensures StoredSelectors(LearnedData(e)).Ok?
    ensures ReadFragments(StoredSelectors(LearnedData(e)).value).Ok?
    ensures Queries(Rank(ReadFragments(StoredSelectors(LearnedData(e)).value).value)) == LearnedQueries(e)
  {
    var a := SeedEntry("resourceId", e.resourceId, 0.9);
    var b := SeedEntry("text", e.text, 0.7);
    var c := SeedEntry("contentDescription", e.contentDesc, 0.8);
    var qa := Ok(Query("", e.resourceId, "", ""));
    var qb := Ok(Query(e.text, "", "", ""));
    var qc := Ok(Query("", "", "", e.contentDesc));
    LearnedItems(e);
    if e.resourceId != "" { SeedEntryReads("resourceId", e.resourceId, 0.9); }
    if e.text != "" { SeedEntryReads("text", e.text, 0.7); }
    if e.contentDesc != "" { SeedEntryReads("contentDescription", e.contentDesc, 0.8); }
    if e.resourceId == "" && e.text != "" && e.contentDesc != "" {
      assert StoredSelectors(LearnedData(e)).value == [b, c];
      ReadAll([b, c], [Fragment(0, 0.7, qb), Fragment(1, 0.8, qc)]);
      RankTwo(Fragment(0, 0.7, qb), Fragment(1, 0.8, qc));
      assert Rank([Fragment(0, 0.7, qb), Fragment(1, 0.8, qc)]) == [Fragment(1, 0.8, qc), Fragment(0, 0.7, qb)];
      assert Queries([Fragment(1, 0.8, qc), Fragment(0, 0.7, qb)]) == [qc, qb];
    } else if e.resourceId == "" && e.text != "" && e.contentDesc == "" {
      assert StoredSelectors(LearnedData(e)).value == [b];
      ReadAll([b], [Fragment(0, 0.7, qb)]);
      RankOne(Fragment(0, 0.7, qb));
      assert Rank([Fragment(0, 0.7, qb)]) == [Fragment(0, 0.7, qb)];
      assert Queries([Fragment(0, 0.7, qb)]) == [qb];
    } else if e.resourceId == "" && e.text == "" && e.contentDesc != "" {
      assert StoredSelectors(LearnedData(e)).value == [c];
      ReadAll([c], [Fragment(0, 0.8, qc)]);
      RankOne(Fragment(0, 0.8, qc));
      assert Rank([Fragment(0, 0.8, qc)]) == [Fragment(0, 0.8, qc)];
      assert Queries([Fragment(0, 0.8, qc)]) == [qc];
    } else if e.resourceId == "" && e.text == "" && e.contentDesc == "" {
      assert StoredSelectors(LearnedData(e)).value == [];
      ReadAll([], []);
      assert Rank([]) == [];
      assert Queries([]) == [];
      assert Queries([]) == [];
    }
  }

  /** The entries kept by the intended data, written out. */
  lemma LearnedItems(e: Element)
    ensures StoredSelectors(LearnedData(e)) == Ok(
      (if e.resourceId != "" then [SeedEntry("resourceId", e.resourceId, 0.9)] else [])
      + (if e.text != "" then [SeedEntry("text", e.text, 0.7)] else [])
      + (if e.contentDesc != "" then [SeedEntry("contentDescription", e.contentDesc, 0.8)] else []))
  {
    var a := SeedEntry("resourceId", e.resourceId, 0.9);
    var b := SeedEntry("text", e.text, 0.7);
    var c := SeedEntry("contentDescription", e.contentDesc, 0.8);
    assert a != Null <==> e.resourceId != "";
    assert b != Null <==> e.text != "";
    assert c != Null <==> e.contentDesc != "";
    var xs := SeedEntries(e);
    assert xs == [a, b, c];
    assert xs[1..] == [b, c] && xs[1..][1..] == [c] && xs[1..][1..][1..] == [];
    assert Filter(xs[1..][1..], NotNull) == (if c != Null then [c] else []);
    assert Filter(xs[1..], NotNull) == (if b != Null then [b] else []) + Filter(xs[1..][1..], NotNull);
    assert Filter(xs, NotNull) == (if a != Null then [a] else []) + Filter(xs[1..], NotNull);
    var A, B, C := (if a != Null then [a] else []), (if b != Null then [b] else []), (if c != Null then [c] else []);
    assert Filter(xs, NotNull) == A + (B + C) == A + B + C;
    assert LearnedData(e).fields["selectors"] == List(Filter(xs, NotNull));
    assert StoredSelectors(LearnedData(e)) == Ok(Filter(xs, NotNull));
  }

  /** A present seeded entry has its confidence as sort key and searches
      by its one attribute. */
  lemma SeedEntryReads(name: string, attr: string, confidence: real)
    requires attr != "" && name in {"resourceId", "text", "contentDescription"}
    ensures SortKey(SeedEntry(name, attr, confidence)) == Ok(confidence)
    ensures FragmentQuery(SeedEntry(name, attr, confidence).fields) == Ok(Query(
      if name == "text" then attr else "", if name == "resourceId" then attr else "", "",
      if name == "contentDescription" then attr else ""))
  {
    var f := SeedEntry(name, attr, confidence).fields;
    assert "confidence" in f && f["confidence"] == Num(confidence);
    assert ArgOf(f, "text") == Ok(if name == "text" then attr else "");
    assert ArgOf(f, "resourceId") == Ok(if name == "resourceId" then attr else "");
    assert ArgOf(f, "contentDescription") == Ok(if name == "contentDescription" then attr else "");
  }

  // ---------------------------------------------------------------- find_single_element

  /** `find_single_element`: the cache step first; on a cache hit its
      element, with no direct search. Otherwise the direct search with the
      full query, whose exceptions propagate; a direct hit with a key is
      learned for the package the second read reports (`current` answers the
      read before the cache step, `saveCurrent` the one before the save; a
      failure to learn is swallowed). The learned data is the selector list
      as written, `None` entries included. */
  method FindSingleElement(uia: UiAutomatorAdapter, store: LearningStore, w: World, current: Result<string>,
                           q: Query, xpath: string, saveCurrent: Result<string>, now: int)
    returns (r: Result<Option<Value>>, direct: bool)
    requires store.Valid()
    modifies uia, store
    ensures uia.u2Device == Connect(old(uia.u2Device), uia.useU2, w.connect)
    ensures store.Valid() && store.enabled == old(store.enabled) && store.log == old(store.log)
    ensures var cached := CacheStep(Finder(uia.u2Device, w), current, store.enabled, old(store.patterns), PatternKey(q));
      cached.Some? ==> !direct && r == Ok(Some(cached.value.ToDict())) && store.patterns == old(store.patterns)
    ensures var cached := CacheStep(Finder(uia.u2Device, w), current, store.enabled, old(store.patterns), PatternKey(q));
      var found := FirstOf(FindSpec(uia.u2Device, w, q, xpath, 1));
      var key := PatternKey(q);
      cached.None? ==> (direct
        && (found.Err? ==> r == Err(found.exn) && store.patterns == old(store.patterns))
        && (found == Ok(None) ==> r == Ok(None) && store.patterns == old(store.patterns))
        && (found.Ok? && found.value.Some? ==> (r == Ok(Some(found.value.value.ToDict()))
              && store.patterns == (if key != "" && saveCurrent.Ok? && store.enabled
                                    then Upsert(old(store.patterns), (saveCurrent.value, key), "element",
                                                SeedData(found.value.value), None, now)
                                    else old(store.patterns)))))
  {
    var key := PatternKey(q);
    ghost var d := Connect(uia.u2Device, uia.useU2, w.connect);
    var cached := TryCache(uia, store, w, current, key);
    if cached.Some? {
      return Ok(Some(cached.value.ToDict())), false;
    }
    direct := true;
    var element := uia.FindElement(w, q, xpath);
    ConnectIdempotent(old(uia.u2Device), uia.useU2, w.connect);
    if element.Err? {
      return Err(element.exn), direct;
    }
    if element.value.None? {
      return Ok(None), direct;
    }
    var e := element.value.value;
    if key != "" && saveCurrent.Ok? {
      var _ := store.SavePattern(saveCurrent.value, key, "element", SeedData(e), None, now);
    }
    r := Ok(Some(e.ToDict()));
  }

  /** `find_single_element` with the learned data it evidently intends:
      only the attributes the element has, so that a later cache step can
      serve them. */
  method FindSingleElementCorrected(uia: UiAutomatorAdapter, store: LearningStore, w: World, current: Result<string>,
                           q: Query, xpath: string, saveCurrent: Result<string>, now: int)
    returns (r: Result<Option<Value>>, direct: bool)
    requires store.Valid()
    modifies uia, store
    ensures uia.u2Device == Connect(old(uia.u2Device), uia.useU2, w.connect)
    ensures store.Valid() && store.enabled == old(store.enabled) && store.log == old(store.log)
    ensures var cached := CacheStep(Finder(uia.u2Device, w), current, store.enabled, old(store.patterns), PatternKey(q));
      cached.Some? ==> !direct && r == Ok(Some(cached.value.ToDict())) && store.patterns == old(store.patterns)
    ensures var cached := CacheStep(Finder(uia.u2Device, w), current, store.enabled, old(store.patterns), PatternKey(q));
      var found := FirstOf(FindSpec(uia.u2Device, w, q, xpath, 1));
      var key := PatternKey(q);
      cached.None? ==> (direct
        && (found.Err? ==> r == Err(found.exn) && store.patterns == old(store.patterns))
        && (found == Ok(None) ==> r == Ok(None) && store.patterns == old(store.patterns))
        && (found.Ok? && found.value.Some? ==> (r == Ok(Some(found.value.value.ToDict()))
              && store.patterns == (if key != "" && saveCurrent.Ok? && store.enabled
                                    then Upsert(old(store.patterns), (saveCurrent.value, key), "element",
                                                LearnedData(found.value.value), None, now)
                                    else old(store.patterns)))))
  {
    var key := PatternKey(q);
    ghost var d := Connect(uia.u2Device, uia.useU2, w.connect);
    var cached := TryCache(uia, store, w, current, key);
    if cached.Some? {
      return Ok(Some(cached.value.ToDict())), false;
    }
    direct := true;
    var element := uia.FindElement(w, q, xpath);
    ConnectIdempotent(old(uia.u2Device), uia.useU2, w.connect);
    if element.Err? {
      return Err(element.exn), direct;
    }
    if element.value.None? {
      return Ok(None), direct;
    }
    var e := element.value.value;
    if key != "" && saveCurrent.Ok? {
      var _ := store.SavePattern(saveCurrent.value, key, "element", LearnedData(e), None, now);
    }
    r := Ok(Some(e.ToDict()));
  }

  /** The cache step as the source runs it, one ranked fragment at a time. */
  method TryCache(uia: UiAutomatorAdapter, store: LearningStore, w: World, current: Result<string>, key: string)
    returns (found: Option<Element>)
    modifies uia
    ensures Connect(uia.u2Device, uia.useU2, w.connect) == Connect(old(uia.u2Device), uia.useU2, w.connect)
    ensures found.Some? ==> uia.u2Device == Connect(old(uia.u2Device), uia.useU2, w.connect)
    ensures found == CacheStep(Finder(Connect(old(uia.u2Device), uia.useU2, w.connect), w), current,
                               store.enabled, store.patterns, key)
  {
    ghost var d := Connect(uia.u2Device, uia.useU2, w.connect);
    ghost var find := Finder(d, w);
    if key == "" || current.Err? {
      return None;
    }
    var pattern := store.GetPattern(current.value, key);
    if pattern.None? || pattern.value.row.patternType != "element" {
      return None;
    }
    var items := StoredSelectors(pattern.value.row.data);
    if items.Err? {
      return None;
    }
    var frs := ReadFragments(items.value);
    if frs.Err? {
      return None;
    }
    var ranked := Rank(frs.value);
    var i := 0;
    while i < |ranked|
      invariant 0 <= i <= |ranked|
      invariant Connect(uia.u2Device, uia.useU2, w.connect) == d
      invariant TryFragments(find, ranked) == TryFragments(find, ranked[i..])
    {
      var q := ranked[i].query;
      if q.Err? {
        return None;
      }
      ghost var before := uia.u2Device;
      var element := uia.FindElement(w, q.value, "");
      ConnectIdempotent(before, uia.useU2, w.connect);
      assert element == find(q.value);
      if element.Err? {
        return None;
      }
      if element.value.Some? {
        return element.value;
      }
      assert ranked[i..][1..] == ranked[i + 1..];
      i := i + 1;
    }
    return None;
  }
  // ---------------------------------------------------------------- find_multiple_elements

  /** `find_multiple_elements`: the dicts of what `find_elements` returns,
      in its order, at most max(limit, 1) of them; its exceptions propagate. */
  method FindMultipleElements(uia: UiAutomatorAdapter, w: World, q: Query, xpath: string, limit: int)
    returns (r: Result<seq<Value>>)
    modifies uia
    ensures uia.u2Device == Connect(old(uia.u2Device), uia.useU2, w.connect)
    ensures var found := FindSpec(uia.u2Device, w, q, xpath, limit);
      && (found.Err? ==> r == Err(found.exn))
      && (found.Ok? ==> (r.Ok? && |r.value| == |found.value| <= Max(limit, 1)
            && forall k :: 0 <= k < |r.value| ==> r.value[k] == found.value[k].ToDict()))
  {
    var elements := uia.FindElements(w, q, xpath, limit);
    FindSpecLimit(uia.u2Device, w, q, xpath, limit);
    if elements.Err? {
      return Err(elements.exn);
    }
    var els := elements.value;
    r := Ok(seq(|els|, k requires 0 <= k < |els| => els[k].ToDict()));
  }

  // ---------------------------------------------------------------- get_bounds

  /** The resource-id fragments that mark system UI in `get_bounds`. */
  const BoundsSystemMarkers: seq<string> :=
    ["statusBarBackground", "navigation_bar", "NavigationBar", "StatusBar", "com.android.systemui"]

  /** `any(x in s for x in markers)`. */
  function AnyIn(markers: seq<string>, s: string): (b: bool)
    ensures b <==> exists k :: 0 <= k < |markers| && Contains(markers[k], s)
  {
    if markers == [] then false
    else
      var rest := AnyIn(markers[1..], s);
      assert forall k :: 1 <= k < |markers| ==> markers[k] == markers[1..][k - 1];
      Contains(markers[0], s) || rest
  }

  /** The entries `get_bounds` keeps. */
  predicate KeepEntry(x: BoundsEntry, clickableOnly: bool, includeSystemUi: bool) {
    (!clickableOnly || x.clickable) && (includeSystemUi || !AnyIn(BoundsSystemMarkers, x.resourceId))
  }

  function Keeper(clickableOnly: bool, includeSystemUi: bool): BoundsEntry -> bool {
    x => KeepEntry(x, clickableOnly, includeSystemUi)
  }

  /** The filter loop of `get_bounds`: the entries that pass both filters,
      in order, cut off once max(limit, 1) are kept. */
  method FilterBounds(all: seq<BoundsEntry>, clickableOnly: bool, includeSystemUi: bool, limit: int)
    returns (r: seq<BoundsEntry>)
    ensures r == Take(Filter(all, Keeper(clickableOnly, includeSystemUi)), Max(limit, 1))
  {
    ghost var p := Keeper(clickableOnly, includeSystemUi);
    r := [];
    var i := 0;
    while i < |all|
      invariant 0 <= i <= |all|
      invariant r == Filter(all[..i], p)
      invariant |r| < Max(limit, 1)
    {
      var elem := all[i];
      FilterSnoc(all, p, i);
      if clickableOnly && !elem.clickable {
        i := i + 1;
        continue;
      }
      if !includeSystemUi && AnyIn(BoundsSystemMarkers, elem.resourceId) {
        i := i + 1;
        continue;
      }
      r := r + [elem];
      if |r| >= limit {
        FilterPrefix(all, p, i + 1);
        return;
      }
      i := i + 1;
    }
    assert all[..i] == all;
  }

  /** What `get_bounds` returns is an in-order selection of its input, of
      entries passing both filters, at most max(limit, 1) long; and when it
      is shorter than that, no passing entry was left out. */
  lemma BoundsFilterSpec(all: seq<BoundsEntry>, clickableOnly: bool, includeSystemUi: bool, limit: int)
    ensures var r := Take(Filter(all, Keeper(clickableOnly, includeSystemUi)), Max(limit, 1));
      && Subseq(r, all) && |r| <= Max(limit, 1)
      && (forall x :: x in r ==> x in all && KeepEntry(x, clickableOnly, includeSystemUi))
      && (|r| < Max(limit, 1) ==> forall x :: x in all && KeepEntry(x, clickableOnly, includeSystemUi) ==> x in r)
  {
    var p := Keeper(clickableOnly, includeSystemUi);
    var f := Filter(all, p);
    FilterSpec(all, p);
    var r := Take(f, Max(limit, 1));
    SubseqPrefix(f, all, |r|);
    forall x | x in r ensures x in all && KeepEntry(x, clickableOnly, includeSystemUi) {
      assert x in f;
    }
    if |r| < Max(limit, 1) {
      assert r == f;
    }
  }

  /** `get_bounds`: the adapter's bounds view, filtered. */
  method GetBounds(uia: UiAutomatorAdapter, w: World, clickableOnly: bool, includeSystemUi: bool, limit: int)
    returns (r: Result<seq<BoundsEntry>>)
    modifies uia
    ensures uia.u2Device == Connect(old(uia.u2Device), uia.useU2, w.connect)
    ensures var all := AllElements(uia.u2Device, w);
      r == if all.Err? then Err(all.exn)
           else Ok(Take(Filter(BoundsView(all.value), Keeper(clickableOnly, includeSystemUi)), Max(limit, 1)))
    ensures r.Ok? ==> |r.value| <= Max(limit, 1) && forall x :: x in r.value ==>
      KeepEntry(x, clickableOnly, includeSystemUi) && x.bounds.right > x.bounds.left && x.bounds.bottom > x.bounds.top
  {
    var all := uia.GetBoundsOnly(w);
    if all.Err? {
      return Err(all.exn);
    }
    var kept := FilterBounds(all.value, clickableOnly, includeSystemUi, limit);
    BoundsFilterSpec(all.value, clickableOnly, includeSystemUi, limit);
    r := Ok(kept);
  }

  // ---------------------------------------------------------------- get_hierarchy

  /** The filters of `get_hierarchy`. */
  datatype TreeFilter = TreeFilter(maxDepth: Option<int>, clickableOnly: bool, includeSystemUi: bool) {
    /** The tree is parsed and pruned only when some filter is asked for. */
    predicate Active() { maxDepth.Some? || clickableOnly || !includeSystemUi }
  }

  /** The resource-id fragments that mark the system bars in the tree. */
  const BarMarkers: seq<string> := ["statusBarBackground", "navigation_bar", "NavigationBar", "StatusBar"]

  predicate Interactive(n: Node) {
    Attr(n, "clickable", "") == "true" || Attr(n, "focusable", "") == "true"
    || Attr(n, "scrollable", "") == "true" || Attr(n, "checkable", "") == "true"
  }

  /** A status or navigation bar: a system UI (or package-less) node whose
      resource id names one. */
  predicate SystemBar(n: Node) {
    (Attr(n, "package", "") == "com.android.systemui" || Attr(n, "package", "") == "")
    && AnyIn(BarMarkers, Attr(n, "resource-id", ""))
  }

  /** `filter_node`: too deep nodes go; with `clickable_only` a node that
      is not interactive stays only for a kept child; with system UI
      excluded the bars go. */
  function Keep(f: TreeFilter, n: Node, depth: int): bool
    decreases n, 1
  {
    if f.maxDepth.Some? && depth > f.maxDepth.value then false
    else if f.clickableOnly && !Interactive(n) && !AnyKept(f, n.children, depth + 1) then false
    else if !f.includeSystemUi && SystemBar(n) then false
    else true
  }

  /** `any(filter_node(child, depth) for child in children)`. */
  function AnyKept(f: TreeFilter, cs: seq<Node>, depth: int): bool
    decreases cs, 0
  {
    cs != [] && (Keep(f, cs[0], depth) || AnyKept(f, cs[1..], depth))
  }

  /** `prune_tree` on a node at `depth`: the node itself stays, its
      children that `filter_node` rejects go, and the kept ones are pruned
      in turn. */
  function Prune(f: TreeFilter, n: Node, depth: int): Node
    decreases n, 1
  {
    Node(n.tag, n.attrs, PruneAll(f, n.children, depth + 1))
  }

  function PruneAll(f: TreeFilter, cs: seq<Node>, depth: int): seq<Node>
    decreases cs, 0
  {
    if cs == [] then []
    else (if Keep(f, cs[0], depth) then [Prune(f, cs[0], depth)] else []) + PruneAll(f, cs[1..], depth)
  }

  lemma {:induction false} PruneAllSnoc(f: TreeFilter, cs: seq<Node>, depth: int, i: nat)
    requires i < |cs|
    ensures PruneAll(f, cs[..i + 1], depth)
      == PruneAll(f, cs[..i], depth) + (if Keep(f, cs[i], depth) then [Prune(f, cs[i], depth)] else [])
    decreases i
  {
    if i == 0 {
      assert cs[..1][1..] == [];
    } else {
      var a, b := cs[..i + 1], cs[..i];
      var head := if Keep(f, cs[0], depth) then [Prune(f, cs[0], depth)] else [];
      var last := if Keep(f, cs[i], depth) then [Prune(f, cs[i], depth)] else [];
      assert a[0] == cs[0] && b[0] == cs[0];
      assert a[1..] == cs[1..][..i];
      assert b[1..] == cs[1..][..i - 1];
      assert PruneAll(f, a, depth) == head + PruneAll(f, a[1..], depth);
      assert PruneAll(f, b, depth) == head + PruneAll(f, b[1..], depth);
      PruneAllSnoc(f, cs[1..], depth, i - 1);
      assert PruneAll(f, a[1..], depth) == PruneAll(f, b[1..], depth) + last;
    }
  }

  /** A pruned sequence holds exactly the pruned kept children. */
  lemma {:induction false} PruneAllMembers(f: TreeFilter, cs: seq<Node>, depth: int, x: Node)
    ensures x in PruneAll(f, cs, depth) <==> exists k :: 0 <= k < |cs| && Keep(f, cs[k], depth) && x == Prune(f, cs[k], depth)
  {
    if cs != [] {
      PruneAllMembers(f, cs[1..], depth, x);
      assert forall k :: 1 <= k < |cs| ==> cs[k] == cs[1..][k - 1];
      if exists k :: 0 <= k < |cs| && Keep(f, cs[k], depth) && x == Prune(f, cs[k], depth) {
        var k :| 0 <= k < |cs| && Keep(f, cs[k], depth) && x == Prune(f, cs[k], depth);
        if k > 0 {
          assert cs[1..][k - 1] == cs[k];
        }
      }
    }
  }

  lemma {:induction false} AnyKeptPrunes(f: TreeFilter, cs: seq<Node>, depth: int)
    requires AnyKept(f, cs, depth)
    ensures PruneAll(f, cs, depth) != []
  {
    if !Keep(f, cs[0], depth) {
      AnyKeptPrunes(f, cs[1..], depth);
    }
  }

  /** The rules every child in a pruned tree obeys. */
  predicate Fits(f: TreeFilter, n: Node, depth: int) {
    && (f.maxDepth.Some? ==> depth <= f.maxDepth.value)
    && (f.clickableOnly ==> Interactive(n) || n.children != [])
    && (f.includeSystemUi || !SystemBar(n))
  }

  /** Every node below `n` (not `n` itself) obeys the rules. */
  predicate Admissible(f: TreeFilter, n: Node, depth: int)
    decreases n
  {
    forall k :: 0 <= k < |n.children| ==>
      Fits(f, n.children[k], depth + 1) && Admissible(f, n.children[k], depth + 1)
  }

  /** After pruning no node below the root is deeper than `max_depth`, with
      `clickable_only` every remaining leaf is interactive, and without
      system UI no status or navigation bar remains. */
  lemma {:induction false} PruneAdmissible(f: TreeFilter, n: Node, depth: int)
    ensures Admissible(f, Prune(f, n, depth), depth)
    decreases n
  {
    var kids := Prune(f, n, depth).children;
    forall k | 0 <= k < |kids|
      ensures Fits(f, kids[k], depth + 1) && Admissible(f, kids[k], depth + 1)
    {
      PruneAllMembers(f, n.children, depth + 1, kids[k]);
      var j :| 0 <= j < |n.children| && Keep(f, n.children[j], depth + 1) && kids[k] == Prune(f, n.children[j], depth + 1);
      var c := n.children[j];
      if f.clickableOnly && !Interactive(c) {
        AnyKeptPrunes(f, c.children, depth + 2);
      }
      PruneAdmissible(f, c, depth + 1);
    }
  }

  lemma {:induction false} KeepInactive(f: TreeFilter, n: Node, depth: int)
    requires !f.Active()
    ensures Keep(f, n, depth)
  {
  }

  /** With no filter asked for pruning changes nothing. */
  lemma {:induction false} PruneInactive(f: TreeFilter, n: Node, depth: int)
    requires !f.Active()
    ensures Prune(f, n, depth) == n
    decreases n, 1
  {
    PruneAllInactive(f, n.children, depth + 1);
  }

  lemma {:induction false} PruneAllInactive(f: TreeFilter, cs: seq<Node>, depth: int)
    requires !f.Active()
    ensures PruneAll(f, cs, depth) == cs
    decreases cs, 0
  {
    if cs != [] {
      PruneInactive(f, cs[0], depth);
      PruneAllInactive(f, cs[1..], depth);
      assert cs == [cs[0]] + cs[1..];
    }
  }

  /** `prune_tree`, one child at a time: rejected children are collected
      for removal, kept ones are pruned recursively. */
  method PruneTree(f: TreeFilter, node: Node, depth: int) returns (r: Node)
    ensures r == Prune(f, node, depth)
    decreases node
  {
    var kept: seq<Node> := [];
    var i := 0;
    while i < |node.children|
      invariant 0 <= i <= |node.children|
      invariant kept == PruneAll(f, node.children[..i], depth + 1)
    {
      var child := node.children[i];
      PruneAllSnoc(f, node.children, depth + 1, i);
      if Keep(f, child, depth + 1) {
        var pruned := PruneTree(f, child, depth + 1);
        kept := kept + [pruned];
      }
      i := i + 1;
    }
    assert node.children[..i] == node.children;
    r := Node(node.tag, node.attrs, kept);
  }

  /** `get_hierarchy` before compression: the adapter's XML, parsed, pruned
      from the root and serialised again when a filter is asked for; a
      parse error leaves the XML as it was. Serialising is `serialize`. */
  method GetHierarchy(uia: UiAutomatorAdapter, w: World, f: TreeFilter, serialize: Node -> string)
    returns (r: Result<string>)
    modifies uia
    ensures uia.u2Device == Connect(old(uia.u2Device), uia.useU2, w.connect)
    ensures var xml := HierarchyXml(uia.u2Device, w);
      && (xml.Err? ==> r == xml)
      && (xml.Ok? && (!f.Active() || w.parse(xml.value).Err?) ==> r == xml)
      && (xml.Ok? && f.Active() && w.parse(xml.value).Ok? ==> r == Ok(serialize(Prune(f, w.parse(xml.value).value, 0))))
  {
    var xml := uia.GetHierarchyXml(w);
    if xml.Err? {
      return xml;
    }
    r := xml;
    if f.Active() {
      var root := w.parse(xml.value);
      if root.Ok? {
        var pruned := PruneTree(f, root.value, 0);
        r := Ok(serialize(pruned));
      }
    }
  }

  // ---------------------------------------------------------------- recording

  datatype StartReply = Started(message: string, maxDuration: int) | NotStarted(error: string)

  datatype StopReply = NoRecording | Stopped(videoSize: nat) | StopFailed(message: string)

  /** The reply of `stop_recording` to that: the video's size, or the
      adapter error as text; other exceptions propagate. */
  function StopReplyOf(v: Result<seq<bv8>>): (r: Result<StopReply>)
    ensures r.Err? <==> v.Err? && v.exn.kind != AdbError
  {
    if v.Ok? then Ok(Stopped(|v.value|))
    else if v.exn.kind == AdbError then Ok(StopFailed("Failed to stop recording: " + v.exn.msg))
    else Err(v.exn)
  }

  /** The adapter's default recording file, which `start_recording` uses. */
  const DefaultRecordPath: string := "/sdcard/screenrecord.mp4"

  /** The module-level `_recording_active` flag and the two tools that use it. */
  class Recorder {
    var active: bool

    constructor()
      ensures !active
    {
      active := false;
    }

    /** `start_recording`: refused while the flag is set, without asking
        the adapter; the flag is set only when the adapter starts. */
    method StartRecording(adb: AdbAdapter, maxDuration: int, spawned: bool)
      returns (r: Result<StartReply>)
      modifies this, adb
      ensures old(active) ==> r == Ok(NotStarted("Recording already in progress")) && active && unchanged(adb)
      ensures !old(active) && old(adb.recording) ==>
        r == Ok(NotStarted("Recording already in progress")) && !active && adb.recording
      ensures !old(active) && !old(adb.recording) && spawned ==>
        adb.recordingPath == Some(DefaultRecordPath) &&
        r == Ok(Started("Recording started (max " + IntToString(maxDuration) + "s)", maxDuration)) && active && adb.recording
      ensures !old(active) && !old(adb.recording) && !spawned ==> r.Err? && !active && !adb.recording
    {
      if active {
        return Ok(NotStarted("Recording already in progress"));
      }
      var started, _ := adb.StartScreenRecord(DefaultRecordPath, maxDuration, spawned);
      if started.Err? {
        if started.exn.kind == AdbError {
          return Ok(NotStarted(started.exn.msg));
        }
        return Err(started.exn);
      }
      active := true;
      r := Ok(Started("Recording started (max " + IntToString(maxDuration) + "s)", maxDuration));
    }

    /** `stop_recording`: "No recording in progress" while the flag is
        clear; otherwise the adapter's video or error, the flag being
        cleared on both (an exception of another kind leaves it set). */
    method StopRecording(adb: AdbAdapter, pull: Outcome, read: Result<seq<bv8>>, rm: Outcome)
      returns (r: Result<StopReply>)
      modifies this, adb
      ensures !old(active) ==> r == Ok(NoRecording) && !active && unchanged(adb)
      ensures old(active) ==> r == StopReplyOf(StopScreenRecordResult(old(adb.recording), pull, read, rm)) && active == r.Err?
      ensures old(active) && old(adb.recording) ==> adb.recording == rm.Err?
    {
      if !active {
        return Ok(NoRecording);
      }
      var video, _ := adb.StopScreenRecord(pull, read, rm);
      r := StopReplyOf(video);
      if r.Ok? {
        active := false;
      }
    }
  }
}
