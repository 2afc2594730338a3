/** Model of conditional-request matching on entity tags (EtagHeader), as
    its tests pin it down: the `If-Match` and `If-None-Match` request
    headers.

    A header value is either `*` or a comma-separated list of tags, each
    optionally in double quotes and surrounded by optional whitespace; empty
    list elements are ignored. A write against a resource with entity tag
    `e` is accepted when `e` is among the `If-Match` tags (or `If-Match` is
    `*` or absent) and `e` is not among the `If-None-Match` tags (nor is
    `If-None-Match` `*`). Unlike RFC 9110 section 8.8.3, bare (unquoted)
    tags are accepted, and there are no weak `W/` tags and no weak
    comparison: tags are compared as plain strings. */
module Etags {
  import opened Common

  const AnyTagText: string := "*"

  /** 412 Precondition Failed. */
  const PreconditionFailedStatus: int := 412

  /** A parsed header value: `*`, or a set of tags. */
  datatype TagList = AnyTag | Tags(tags: set<string>)

  /** Both conditions of a request; an absent header imposes nothing. */
  datatype EtagHeader = EtagHeader(ifMatch: Option<TagList>, ifNoneMatch: Option<TagList>)

  datatype Verdict = Accepted | Rejected(status: int)

  // ---------------------------------------------------------------------
  // Lists

  /** The comma-separated elements of `s`, empty ones included. */
  function Split(s: string): (parts: seq<string>)
    ensures |parts| >= 1
    ensures forall p <- parts :: ',' !in p
    decreases |s|
  {
    if |s| == 0 then [""]
    else
      var rest := Split(s[1..]);
      if s[0] == ',' then [""] + rest
      else [[s[0]] + rest[0]] + rest[1..]
  }

  /** The elements of `parts` separated by commas. */
  function Join(parts: seq<string>): string
    requires |parts| >= 1
    decreases |parts|
  {
    if |parts| == 1 then parts[0] else parts[0] + "," + Join(parts[1..])
  }

  lemma {:induction false} SplitPrefix(a: string, s: string)
    requires ',' !in a
    ensures Split(a + s) == [a + Split(s)[0]] + Split(s)[1..]
    decreases |a|
  {
    if |a| > 0 {
      assert (a + s)[0] == a[0];
      assert (a + s)[1..] == a[1..] + s;
      SplitPrefix(a[1..], s);
      assert [a[0]] + (a[1..] + Split(s)[0]) == a + Split(s)[0];
    } else {
      assert a + s == s;
      assert a + Split(s)[0] == Split(s)[0];
      assert [Split(s)[0]] + Split(s)[1..] == Split(s);
    }
  }

  /** Splitting undoes joining elements that contain no comma. */
  lemma {:induction false} SplitJoin(parts: seq<string>)
    requires |parts| >= 1
    requires forall p <- parts :: ',' !in p
    ensures Split(Join(parts)) == parts
    decreases |parts|
  {
    if |parts| == 1 {
      SplitPrefix(parts[0], "");
      assert parts[0] + "" == parts[0];
    } else {
      var rest := parts[1..];
      assert forall p <- rest :: p in parts;
      SplitJoin(rest);
      var tail := "," + Join(rest);
      assert Join(parts) == parts[0] + tail;
      SplitPrefix(parts[0], tail);
      assert tail[0] == ',' && tail[1..] == Join(rest);
      assert Split(tail) == [""] + rest;
      assert parts[0] + "" == parts[0];
      assert [parts[0]] + rest == parts;
    }
  }

  /** Joining undoes splitting. */
  lemma {:induction false} JoinSplit(s: string)
    ensures Join(Split(s)) == s
    decreases |s|
  {
    if |s| > 0 {
      JoinSplit(s[1..]);
      var rest := Split(s[1..]);
      if s[0] == ',' {
        assert ([""] + rest)[1..] == rest;
        assert "" + "," + s[1..] == s;
      } else {
        var parts := [[s[0]] + rest[0]] + rest[1..];
        if |rest| == 1 {
          assert Join(rest) == rest[0];
        } else {
          assert parts[1..] == rest[1..];
          assert Join(rest) == rest[0] + "," + Join(rest[1..]);
        }
        assert [s[0]] + s[1..] == s;
      }
    }
  }

  // ---------------------------------------------------------------------
  // Elements

  predicate IsOws(c: char) {
    c == ' ' || c == '\t'
  }

  /** How many whitespace characters open `s`. */
  function LeadingOws(s: string): (n: nat)
    ensures n <= |s|
    ensures forall i :: 0 <= i < n ==> IsOws(s[i])
    ensures n < |s| ==> !IsOws(s[n])
    decreases |s|
  {
    if |s| > 0 && IsOws(s[0]) then
      var m := LeadingOws(s[1..]);
      assert forall i :: 1 <= i < 1 + m ==> s[i] == s[1..][i - 1];
      1 + m
    else 0
  }

  /** How many whitespace characters close `s`. */
  function TrailingOws(s: string): (n: nat)
    ensures n <= |s|
    ensures forall i :: |s| - n <= i < |s| ==> IsOws(s[i])
    ensures n < |s| ==> !IsOws(s[|s| - n - 1])
    decreases |s|
  {
    if |s| > 0 && IsOws(s[|s| - 1]) then
      var m := TrailingOws(s[..|s| - 1]);
      assert forall i :: |s| - 1 - m <= i < |s| - 1 ==> s[i] == s[..|s| - 1][i];
      1 + m
    else 0
  }

  /** `s` without its leading whitespace. */
  function TrimStart(s: string): string {
    s[LeadingOws(s)..]
  }

  /** `s` without its trailing whitespace. */
  function TrimEnd(s: string): string {
    s[..|s| - TrailingOws(s)]
  }

  function Trim(s: string): string {
    TrimEnd(TrimStart(s))
  }

  /** A string that neither starts nor ends with whitespace is its own trim. */
  lemma TrimKeeps(s: string)
    requires |s| > 0 && !IsOws(s[0]) && !IsOws(s[|s| - 1])
    ensures Trim(s) == s
  {
    assert LeadingOws(s) == 0;
    assert s[0..] == s;
    assert TrailingOws(s) == 0;
    assert s[..|s|] == s;
  }

  /** `t` without one pair of enclosing double quotes. */
  function Unquote(t: string): string {
    if |t| >= 2 && t[0] == '"' && t[|t| - 1] == '"' then t[1..|t| - 1] else t
  }

  /** The tag a list element stands for. */
  function Normalize(element: string): string {
    Unquote(Trim(element))
  }

  /** A header value: `*`, or the set of the non-empty elements' tags. */
  function ParseList(value: string): TagList {
    if Trim(value) == AnyTagText then AnyTag
    else Tags(set p | p in Split(value) && Normalize(p) != "" :: Normalize(p))
  }

  /** An absent or blank header imposes no condition. */
  function ParseHeader(value: Option<string>): Option<TagList> {
    match value
    case None => None
    case Some(v) => if Trim(v) == "" then None else Some(ParseList(v))
  }

  function FromHeader(ifMatch: Option<string>, ifNoneMatch: Option<string>): EtagHeader {
    EtagHeader(ParseHeader(ifMatch), ParseHeader(ifNoneMatch))
  }

  predicate Matches(list: TagList, etag: string) {
    match list
    case AnyTag => true
    case Tags(ts) => etag in ts
  }

  /** Checks a write against the resource's current entity tag. */
  function Validate(h: EtagHeader, etag: string): (v: Verdict)
    ensures v.Accepted? <==>
              (h.ifMatch.None? || Matches(h.ifMatch.value, etag))
              && (h.ifNoneMatch.None? || !Matches(h.ifNoneMatch.value, etag))
    ensures v.Rejected? ==> v.status == PreconditionFailedStatus
  {
    if h.ifMatch.Some? && !Matches(h.ifMatch.value, etag) then Rejected(PreconditionFailedStatus)
    else if h.ifNoneMatch.Some? && Matches(h.ifNoneMatch.value, etag) then Rejected(PreconditionFailedStatus)
    else Accepted
  }

  // ---------------------------------------------------------------------
  // Rendering tags, and parsing what was rendered

  /** A tag as the tests write it: non-empty, without commas, quotes, stars or whitespace. */
  predicate PlainTag(t: string) {
    |t| > 0 && forall c <- t :: c != ',' && c != '"' && c != '*' && !IsOws(c)
  }

  function Quoted(t: string): string {
    "\"" + t + "\""
  }

  function Render(tags: seq<string>, quoted: bool): (r: seq<string>)
    ensures |r| == |tags|
    ensures forall i :: 0 <= i < |tags| ==> r[i] == if quoted then Quoted(tags[i]) else tags[i]
  {
    if |tags| == 0 then [] else [if quoted then Quoted(tags[0]) else tags[0]] + Render(tags[1..], quoted)
  }

  lemma NormalizeRendered(t: string, quoted: bool)
    requires PlainTag(t)
    ensures Normalize(if quoted then Quoted(t) else t) == t
  {
    var e := if quoted then Quoted(t) else t;
    assert e[0] == (if quoted then '"' else t[0]);
    assert e[|e| - 1] == (if quoted then '"' else t[|t| - 1]);
    assert t[0] in t && t[|t| - 1] in t;
    TrimKeeps(e);
    if quoted {
      assert e[1..|e| - 1] == t;
    } else {
      assert t[0] != '"';
    }
  }

  lemma {:induction false} JoinFirst(parts: seq<string>)
    requires |parts| >= 1 && |parts[0]| > 0
    ensures |Join(parts)| > 0 && Join(parts)[0] == parts[0][0]
  {
  }

  lemma {:induction false} JoinLast(parts: seq<string>)
    requires |parts| >= 1 && |parts[|parts| - 1]| > 0
    ensures |Join(parts)| > 0 && Join(parts)[|Join(parts)| - 1] == parts[|parts| - 1][|parts[|parts| - 1]| - 1]
    decreases |parts|
  {
    if |parts| > 1 {
      assert parts[1..][|parts[1..]| - 1] == parts[|parts| - 1];
      JoinLast(parts[1..]);
    }
  }

  /** A rendered plain tag has no comma and starts and ends with neither whitespace nor a star. */
  lemma RenderedElement(t: string, quoted: bool)
    requires PlainTag(t)
    ensures var e := if quoted then Quoted(t) else t;
            |e| > 0 && ',' !in e && e[0] != '*' && !IsOws(e[0]) && !IsOws(e[|e| - 1])
  {
    assert t[0] in t && t[|t| - 1] in t;
  }

  /** Rendered plain tags contain no comma, and their list starts and ends
      with neither whitespace nor a star. */
  lemma RenderedShape(tags: seq<string>, quoted: bool)
    requires |tags| >= 1 && forall t <- tags :: PlainTag(t)
    ensures forall p <- Render(tags, quoted) :: ',' !in p
    ensures Trim(Join(Render(tags, quoted))) == Join(Render(tags, quoted))
    ensures |Join(Render(tags, quoted))| > 0 && Join(Render(tags, quoted))[0] != '*'
  {
    var r := Render(tags, quoted);
    forall i | 0 <= i < |r|
      ensures ',' !in r[i]
    {
      assert tags[i] in tags;
      RenderedElement(tags[i], quoted);
    }
    assert tags[0] in tags && tags[|tags| - 1] in tags;
    RenderedElement(tags[0], quoted);
    RenderedElement(tags[|tags| - 1], quoted);
    JoinFirst(r);
    JoinLast(r);
    TrimKeeps(Join(r));
  }

  /** Elements whose tags are known and non-empty yield exactly those tags. */
  lemma {:induction false} ElementTags(r: seq<string>, tags: seq<string>)
    requires |r| == |tags|
    requires forall i :: 0 <= i < |r| ==> Normalize(r[i]) == tags[i] && tags[i] != ""
    ensures (set p | p in r && Normalize(p) != "" :: Normalize(p)) == set t | t in tags
  {
    var parsed := set p | p in r && Normalize(p) != "" :: Normalize(p);
    forall t | t in tags
      ensures t in parsed
    {
      var i :| 0 <= i < |tags| && tags[i] == t;
      assert r[i] in r;
    }
  }

  /** The tags read from the elements of rendered plain tags are exactly those tags. */
  lemma RenderedTags(tags: seq<string>, quoted: bool)
    requires forall t <- tags :: PlainTag(t)
    ensures (set p | p in Render(tags, quoted) && Normalize(p) != "" :: Normalize(p)) == set t | t in tags
  {
    var r := Render(tags, quoted);
    forall i | 0 <= i < |tags|
      ensures Normalize(r[i]) == tags[i] && tags[i] != ""
    {
      assert tags[i] in tags;
      NormalizeRendered(tags[i], quoted);
    }
    ElementTags(r, tags);
  }

  /** A list of plain tags, bare or quoted, parses back to exactly its tags. */
  lemma ParseRendered(tags: seq<string>, quoted: bool)
    requires |tags| >= 1 && forall t <- tags :: PlainTag(t)
    ensures ParseList(Join(Render(tags, quoted))) == Tags(set t | t in tags)
  {
    RenderedShape(tags, quoted);
    SplitJoin(Render(tags, quoted));
    RenderedTags(tags, quoted);
  }

  // ---------------------------------------------------------------------
  // The behaviour the tests pin down

  /** A single `If-Match` tag, bare or quoted, accepts that tag. */
  lemma SingleTagAccepted(t: string, quoted: bool)
    requires PlainTag(t)
    ensures Validate(FromHeader(Some(if quoted then Quoted(t) else t), None), t) == Accepted
  {
    ParseRendered([t], quoted);
    var v := if quoted then Quoted(t) else t;
    assert Join(Render([t], quoted)) == v;
    assert t[0] in t && t[|t| - 1] in t;
    assert v[0] == (if quoted then '"' else t[0]);
    TrimKeeps(v);
  }

  /** An `If-Match` list accepts each listed tag and rejects every other
      tag; an `If-None-Match` list does the opposite. */
  lemma TagListMatching(tags: seq<string>, quoted: bool, etag: string)
    requires |tags| >= 1 && forall t <- tags :: PlainTag(t)
    ensures Validate(FromHeader(Some(Join(Render(tags, quoted))), None), etag)
         == if etag in tags then Accepted else Rejected(PreconditionFailedStatus)
    ensures Validate(FromHeader(None, Some(Join(Render(tags, quoted)))), etag)
         == if etag in tags then Rejected(PreconditionFailedStatus) else Accepted
  {
    ParseRendered(tags, quoted);
    RenderedShape(tags, quoted);
  }

  /** `If-Match: *`, or no condition at all, accepts every tag. */
  lemma AnyOrMissingAccepts(etag: string)
    ensures Validate(FromHeader(Some(AnyTagText), None), etag) == Accepted
    ensures Validate(FromHeader(None, None), etag) == Accepted
  {
    TrimKeeps(AnyTagText);
  }

  /** `If-None-Match: *` rejects every tag: an existing resource is never overwritten. */
  lemma NoOverwrite(etag: string)
    ensures Validate(FromHeader(None, Some(AnyTagText)), etag) == Rejected(PreconditionFailedStatus)
  {
    TrimKeeps(AnyTagText);
  }

  /** With both headers, a tag matched by `If-Match` (a list or `*`) and
      absent from the `If-None-Match` list is accepted; one present in the
      `If-None-Match` list is rejected. */
  lemma BothHeaders(matchTags: seq<string>, noneTags: seq<string>, anyMatch: bool, etag: string)
    requires |matchTags| >= 1 && forall t <- matchTags :: PlainTag(t)
    requires |noneTags| >= 1 && forall t <- noneTags :: PlainTag(t)
    requires anyMatch || etag in matchTags
    ensures var ifMatch := if anyMatch then AnyTagText else Join(Render(matchTags, false));
            Validate(FromHeader(Some(ifMatch), Some(Join(Render(noneTags, false)))), etag)
            == if etag in noneTags then Rejected(PreconditionFailedStatus) else Accepted
  {
    TagListMatching(matchTags, false, etag);
    TagListMatching(noneTags, false, etag);
    TrimKeeps(AnyTagText);
  }

  lemma RenderTwo(a: string, b: string, quoted: bool)
    ensures Join(Render([a, b], quoted))
         == (if quoted then Quoted(a) else a) + "," + (if quoted then Quoted(b) else b)
  {
    var r := Render([a, b], quoted);
    assert r == [if quoted then Quoted(a) else a, if quoted then Quoted(b) else b];
    assert r[1..] == [r[1]];
  }

  /** The single-tag scenarios with their literal header values. */
  lemma SingleTagScenarios()
    ensures Validate(FromHeader(Some("123"), None), "123") == Accepted
    ensures Validate(FromHeader(Some("\"123\""), None), "123") == Accepted
  {
    assert PlainTag("123");
    SingleTagAccepted("123", false);
    SingleTagAccepted("123", true);
    assert Quoted("123") == "\"123\"";
  }

  /** A single `If-Match` tag rejects a different tag. */
  lemma SingleTagMismatch()
    ensures Validate(FromHeader(Some("123"), None), "234") == Rejected(PreconditionFailedStatus)
  {
    assert PlainTag("123");
    assert Render(["123"], false) == ["123"];
    TagListMatching(["123"], false, "234");
  }

  /** The quoted-list scenario with its literal header value. */
  lemma QuotedListScenario()
    ensures Validate(FromHeader(Some("\"123\",\"234\""), None), "123") == Accepted
    ensures Validate(FromHeader(Some("\"123\",\"234\""), None), "234") == Accepted
  {
    assert PlainTag("123") && PlainTag("234");
    RenderTwo("123", "234", true);
    assert Quoted("123") + "," + Quoted("234") == "\"123\",\"234\"";
    TagListMatching(["123", "234"], true, "123");
    TagListMatching(["123", "234"], true, "234");
  }

  /** The scenarios with an `If-None-Match` list, with their literal header values. */
  lemma NoneMatchListScenarios()
    ensures Validate(FromHeader(Some("299,123"), Some("235,326")), "123") == Accepted
    ensures Validate(FromHeader(Some("*"), Some("235,326")), "123") == Accepted
    ensures Validate(FromHeader(None, Some("235,326")), "326") == Rejected(PreconditionFailedStatus)
    ensures Validate(FromHeader(None, Some("235,326")), "123") == Accepted
  {
    assert PlainTag("299") && PlainTag("123") && PlainTag("235") && PlainTag("326");
    RenderTwo("299", "123", false);
    RenderTwo("235", "326", false);
    assert "299" + "," + "123" == "299,123";
    assert "235" + "," + "326" == "235,326";
    BothHeaders(["299", "123"], ["235", "326"], false, "123");
    BothHeaders(["299", "123"], ["235", "326"], true, "123");
    TagListMatching(["235", "326"], false, "326");
    TagListMatching(["235", "326"], false, "123");
  }
}
