/** The inventory crawler: a line-oriented reader of the markdown site inventory,
    the area-text reader, the conversion of a parsed site to a site file and its
    basic validation, and the loop that writes one file per acceptable site.
    `parseFloat` and the two-decimal rounding of the unit conversions are parameters. */
module Crawl {
  import opened Wrappers
  import opened Text
  import opened Seqs

  /** No character the regex `.` refuses. */
  predicate NoTerminator(s: string)
  {
    forall i :: 0 <= i < |s| ==> !IsLineTerminator(s[i])
  }

  predicate IsUpper(c: char)
  {
    'A' <= c <= 'Z'
  }

  /** `/^## (.+) \(([A-Z]{2})\)$/`: the suffix ` (XX)` has a fixed length, so the
      pattern is a prefix, a non-empty middle and that suffix. */
  predicate IsStateHeader(line: string)
  {
    && |line| >= 9
    && line[..3] == "## "
    && NoTerminator(line[3..|line| - 5])
    && line[|line| - 5..|line| - 3] == " ("
    && IsUpper(line[|line| - 3]) && IsUpper(line[|line| - 2])
    && line[|line| - 1] == ')'
  }

  /** The two-letter state code of a state header. */
  function StateCode(line: string): (r: string)
    requires IsStateHeader(line)
    ensures |r| == 2 && IsUpper(r[0]) && IsUpper(r[1])
  {
    line[|line| - 3..|line| - 1]
  }

  /** `/^### (.+)$/`. */
  predicate IsSiteHeader(line: string)
  {
    |line| >= 5 && line[..4] == "### " && NoTerminator(line[4..])
  }

  /** A site as the parser collects it; `coords` holds `[lat, lng]` as parsed. */
  datatype Site = Site(name: string, state: Option<string>, id: Option<string>, designation: Option<string>,
                       areaText: Option<string>, coords: Option<(Number, Number)>, status: Option<string>)

  function NewSite(name: string, state: Option<string>): Site
  {
    Site(name, state, None, None, None, None, None)
  }

  /** `/- \*\*([^*]+)\*\*: (.+)$/` tried at offset `p`: the key runs to the first `*`,
      then `**: `, then a value that reaches the end of the line. */
  function PropertyAt(s: string, p: nat): (r: Option<(string, string)>)
    requires p <= |s|
    ensures r.Some? ==> r.value.0 != [] && r.value.1 != [] && '*' !in r.value.0 && NoTerminator(r.value.1)
  {
    var rest := s[p..];
    if !IsPrefix("- **", rest) then None
    else
      var k := 4 + IndexOf(rest[4..], '*');
      if k == 4 || !IsPrefix("**: ", rest[k..]) then None
      else
        var value := rest[k + 4..];
        if value == [] || !NoTerminator(value) then None
        else
          assert forall i :: 0 <= i < k - 4 ==> rest[4..k][i] == rest[4..][i];
          Some((rest[4..k], value))
  }

  /** The property pattern matches at offset `q`. */
  predicate PropertyMatchesAt(s: string, q: nat)
  {
    q <= |s| && PropertyAt(s, q).Some?
  }

  /** `line.match(...)`: the match at the leftmost offset where the pattern matches. */
  function MatchProperty(s: string): Option<(string, string)>
  {
    match Leftmost(s, 0, PropertyMatchesAt)
    case None => None
    case Some(q) => PropertyAt(s, q)
  }

  /** The property keys the parser knows; `key.toLowerCase()` is compared with them.
      No non-ASCII character lower-cases into one of these words, so ASCII
      lower-casing decides the comparison exactly. */
  const KnownKeys: set<string> := {"id", "state", "designation", "area", "coordinates", "status"}

  /** One property line applied to the current site; the name never changes,
      unknown keys change nothing, and coordinates are taken only from a value
      with exactly two comma-separated parts. */
  function ApplyProperty(s: Site, key: string, value: string, parseFloat: string -> Number): (r: Site)
    ensures r.name == s.name
    ensures ToLower(key) !in KnownKeys ==> r == s
    ensures ToLower(key) == "state" ==> r == s.(state := Some(Trim(value)))
    ensures ToLower(key) == "id" ==> r == s.(id := Some(Trim(value)))
    ensures ToLower(key) == "coordinates" && Count(value, ',') != 1 ==> r == s
    ensures ToLower(key) == "coordinates" && Count(value, ',') == 1 ==>
      var parts := Split(value, ',');
      r == s.(coords := Some((parseFloat(Trim(parts[0])), parseFloat(Trim(parts[1])))))
  {
    var k := ToLower(key);
    if k == "id" then s.(id := Some(Trim(value)))
    else if k == "state" then s.(state := Some(Trim(value)))
    else if k == "designation" then s.(designation := Some(Trim(value)))
    else if k == "area" then s.(areaText := Some(Trim(value)))
    else if k == "coordinates" then
      var parts := Split(value, ',');
      if |parts| == 2 then s.(coords := Some((parseFloat(Trim(parts[0])), parseFloat(Trim(parts[1]))))) else s
    else if k == "status" then s.(status := Some(Trim(value)))
    else s
  }

  /** The parser's state: the finished sites, the site being read, the current state code. */
  datatype Parser = Parser(sites: seq<Site>, current: Option<Site>, state: Option<string>)

  function OptSeq(o: Option<Site>): (r: seq<Site>)
    ensures o.Some? ==> r == [o.value]
    ensures o.None? ==> r == []
  {
    if o.Some? then [o.value] else []
  }

  /** The sites read so far, the open one included. */
  function AllSites(p: Parser): seq<Site>
  {
    p.sites + OptSeq(p.current)
  }

  /** One inventory line, already trimmed: a state header sets the state; a site
      header closes the open site and opens one that inherits the state; a property
      line of an open site updates it; everything else is ignored. */
  function Step(p: Parser, line: string, parseFloat: string -> Number): (r: Parser)
    ensures IsStateHeader(line) ==> r == p.(state := Some(StateCode(line)))
    ensures !IsStateHeader(line) && IsSiteHeader(line) ==>
      r == Parser(AllSites(p), Some(NewSite(line[4..], p.state)), p.state)
    ensures !IsStateHeader(line) && !IsSiteHeader(line) ==>
      && r.sites == p.sites && r.state == p.state
      && (p.current.None? ==> r == p)
      && (p.current.Some? ==> r.current.Some? && r.current.value.name == p.current.value.name)
      && (p.current.Some? && IsPrefix("- **", line) && MatchProperty(line).Some? ==>
            r.current == Some(ApplyProperty(p.current.value, MatchProperty(line).value.0,
                                            MatchProperty(line).value.1, parseFloat)))
    ensures !IsStateHeader(line) && !IsSiteHeader(line) && !(IsPrefix("- **", line) && MatchProperty(line).Some?) ==>
      r == p
  {
    if IsStateHeader(line) then p.(state := Some(StateCode(line)))
    else if IsSiteHeader(line) then Parser(AllSites(p), Some(NewSite(line[4..], p.state)), p.state)
    else if p.current.Some? && IsPrefix("- **", line) then
      match MatchProperty(line)
      case None => p
      case Some((key, value)) => p.(current := Some(ApplyProperty(p.current.value, key, value, parseFloat)))
    else p
  }

  function ParseLines(p: Parser, lines: seq<string>, parseFloat: string -> Number): Parser
    decreases |lines|
  {
    if lines == [] then p else ParseLines(Step(p, Trim(lines[0]), parseFloat), lines[1..], parseFloat)
  }

  /** The name a line contributes as a site header: none, or the text after `### `. */
  function HeaderName(line: string): (r: seq<string>)
    ensures |r| <= 1
  {
    if !IsStateHeader(line) && IsSiteHeader(line) then [line[4..]] else []
  }

  /** The names of the site headers among the lines, in order: the reference
      definition the parser's output is measured against. */
  function HeaderNames(lines: seq<string>): seq<string>
  {
    if lines == [] then [] else HeaderName(Trim(lines[0])) + HeaderNames(lines[1..])
  }

  function Names(sites: seq<Site>): (r: seq<string>)
    ensures |r| == |sites| && forall i :: 0 <= i < |sites| ==> r[i] == sites[i].name
  {
    seq(|sites|, i requires 0 <= i < |sites| => sites[i].name)
  }

  /** One line adds the name it carries as a site header and leaves the other names alone. */
  lemma StepNames(p: Parser, line: string, parseFloat: string -> Number)
    ensures Names(AllSites(Step(p, line, parseFloat))) == Names(AllSites(p)) + HeaderName(line)
  {
    var q := Step(p, line, parseFloat);
    if IsStateHeader(line) {
      assert AllSites(q) == AllSites(p);
    } else if IsSiteHeader(line) {
      assert AllSites(q) == AllSites(p) + [NewSite(line[4..], p.state)];
    } else {
      assert HeaderName(line) == [];
      assert |AllSites(q)| == |AllSites(p)|;
      forall i | 0 <= i < |AllSites(q)| ensures AllSites(q)[i].name == AllSites(p)[i].name {
        if i < |p.sites| {
          assert AllSites(q)[i] == p.sites[i];
        }
      }
    }
  }

  /** Every site header adds exactly one site, named after it, and nothing else adds one. */
  lemma {:induction false} ParseLinesNames(p: Parser, lines: seq<string>, parseFloat: string -> Number)
    ensures Names(AllSites(ParseLines(p, lines, parseFloat))) == Names(AllSites(p)) + HeaderNames(lines)
    decreases |lines|
  {
    if lines != [] {
      var q := Step(p, Trim(lines[0]), parseFloat);
      StepNames(p, Trim(lines[0]), parseFloat);
      ParseLinesNames(q, lines[1..], parseFloat);
      assert ParseLines(p, lines, parseFloat) == ParseLines(q, lines[1..], parseFloat);
      assert HeaderNames(lines) == HeaderName(Trim(lines[0])) + HeaderNames(lines[1..]);
    }
  }

  /** The parser before the first line. */
  function Start(): (r: Parser)
    ensures AllSites(r) == []
  {
    Parser([], None, None)
  }

  lemma ParseFromStart(lines: seq<string>, parseFloat: string -> Number)
    ensures Names(AllSites(ParseLines(Start(), lines, parseFloat))) == HeaderNames(lines)
  {
    ParseLinesNames(Start(), lines, parseFloat);
    assert Names(AllSites(Start())) == [];
  }

  /** `parseInventory(content)`: the sites, the last open one flushed at the end.
      Their names are exactly the site headers' names, so their number is the
      number of site header lines. */
  function ParseInventory(content: string, parseFloat: string -> Number): (r: seq<Site>)
    ensures Names(r) == HeaderNames(Split(content, '\n'))
    ensures |r| == |HeaderNames(Split(content, '\n'))|
  {
    ParseFromStart(Split(content, '\n'), parseFloat);
    AllSites(ParseLines(Start(), Split(content, '\n'), parseFloat))
  }

  /** A site opened right after a state header carries that header's state code. */
  lemma StateInherited(p: Parser, header: string, siteLine: string, parseFloat: string -> Number)
    requires IsStateHeader(Trim(header))
    requires !IsStateHeader(Trim(siteLine)) && IsSiteHeader(Trim(siteLine))
    ensures ParseLines(p, [header, siteLine], parseFloat).current ==
      Some(NewSite(Trim(siteLine)[4..], Some(StateCode(Trim(header)))))
  {
    var q := Step(p, Trim(header), parseFloat);
    assert q.state == Some(StateCode(Trim(header)));
    assert [header, siteLine][1..] == [siteLine];
    assert ParseLines(p, [header, siteLine], parseFloat) == ParseLines(q, [siteLine], parseFloat);
    assert [siteLine][1..] == [];
    assert ParseLines(q, [siteLine], parseFloat) == Step(q, Trim(siteLine), parseFloat);
  }

  /** An explicit `State` property overrides the inherited state of the open site. */
  lemma StateLineOverrides(p: Parser, line: string, parseFloat: string -> Number)
    requires p.current.Some?
    requires !IsStateHeader(line) && !IsSiteHeader(line) && IsPrefix("- **", line)
    requires MatchProperty(line).Some? && ToLower(MatchProperty(line).value.0) == "state"
    ensures Step(p, line, parseFloat).current.value.state == Some(Trim(MatchProperty(line).value.1))
  {
  }

  // ---- parseArea ----

  predicate IsAreaDigit(c: char)
  {
    IsDigit(c) || c == ','
  }

  /** A string of digits and commas only, as `[0-9,]+` captures. */
  predicate IsRun(s: string)
  {
    forall i :: 0 <= i < |s| ==> IsAreaDigit(s[i])
  }

  /** The end of the run of digits and commas from `i`. */
  function RunEnd(s: string, i: nat): (r: nat)
    requires i <= |s|
    ensures i <= r <= |s|
    ensures forall k :: i <= k < r ==> IsAreaDigit(s[k])
    ensures r == |s| || !IsAreaDigit(s[r])
    decreases |s| - i
  {
    if i < |s| && IsAreaDigit(s[i]) then RunEnd(s, i + 1) else i
  }

  /** The end of the run of `\s` characters from `i`. */
  function SkipSpaces(s: string, i: nat): (r: nat)
    requires i <= |s|
    ensures i <= r <= |s|
    ensures forall k :: i <= k < r ==> IsSpace(s[k])
    decreases |s| - i
  {
    if i < |s| && IsSpace(s[i]) then SkipSpaces(s, i + 1) else i
  }

  /** The lower-case ASCII `word` occurs at `i`, ignoring case. */
  predicate WordAt(s: string, i: nat, word: string)
  {
    i + |word| <= |s| && ToLower(s[i..i + |word|]) == word
  }

  /** `/([0-9,]+)\s*acres/i` matches at `i`. The greedy run cannot give back a
      character and still match, so the run is maximal. */
  predicate AcresAt(s: string, i: nat)
  {
    i < |s| && IsAreaDigit(s[i]) && WordAt(s, SkipSpaces(s, RunEnd(s, i)), "acres")
  }

  /** `/\(([0-9,]+)\s*sq\s*mi\)/i` matches at `i`. */
  predicate SqMiAt(s: string, i: nat)
  {
    && i + 1 < |s| && s[i] == '(' && IsAreaDigit(s[i + 1])
    && var j := SkipSpaces(s, RunEnd(s, i + 1));
    && WordAt(s, j, "sq")
    && var k := SkipSpaces(s, j + 2);
    && WordAt(s, k, "mi") && k + 2 < |s| && s[k + 2] == ')'
  }

  /** `k` is the first offset at or after `from` where `at` holds. */
  ghost predicate FirstAt(s: string, from: nat, at: (string, nat) -> bool, k: nat)
  {
    from <= k < |s| && at(s, k) && forall j :: from <= j < k ==> !at(s, j)
  }

  /** The leftmost offset at or after `i` where `at` holds. */
  function Leftmost(s: string, i: nat, at: (string, nat) -> bool): (r: Option<nat>)
    requires i <= |s|
    ensures r.Some? ==> FirstAt(s, i, at, r.value)
    ensures r.None? ==> forall k :: i <= k < |s| ==> !at(s, k)
    ensures forall k: nat :: FirstAt(s, i, at, k) ==> r == Some(k)
    decreases |s| - i
  {
    if i == |s| then None
    else if at(s, i) then Some(i)
    else
      assert forall k: nat :: FirstAt(s, i, at, k) ==> FirstAt(s, i + 1, at, k);
      Leftmost(s, i + 1, at)
  }

  predicate NotComma(c: char)
  {
    c != ','
  }

  /** `s.replace(/,/g, '')`: the characters of `s` other than commas, in order. */
  function StripCommas(s: string): (r: string)
    ensures r == Filter(s, NotComma)
    ensures ',' !in r
    ensures IsRun(s) ==> forall i :: 0 <= i < |r| ==> IsDigit(r[i])
  {
    if s == [] then [] else (if s[0] == ',' then [] else [s[0]]) + StripCommas(s[1..])
  }

  /** `parseInt` of a string of digits and commas with the commas removed: the
      decimal value of the digits left, and NaN when none are left. */
  function ParseCount(run: string): (r: Number)
    requires IsRun(run)
    ensures r.NaN? <==> StripCommas(run) == []
    ensures r.Num? ==> r.v == DigitsValue(StripCommas(run)) as real
  {
    var digits := StripCommas(run);
    if digits == [] then NaN else Num(DigitsValue(digits) as real)
  }

  /** Stripping commas distributes over concatenation. */
  lemma {:induction false} StripCommasAppend(a: string, b: string)
    ensures StripCommas(a + b) == StripCommas(a) + StripCommas(b)
  {
    FilterAppend(a, b, NotComma);
  }

  /** A string without commas is left as it is. */
  lemma {:induction false} StripCommasNoCommas(s: string)
    requires ',' !in s
    ensures StripCommas(s) == s
  {
    if s != [] {
      assert s == [s[0]] + s[1..];
      StripCommasNoCommas(s[1..]);
    }
  }

  lemma IsRunAppend(a: string, b: string)
    requires IsRun(a) && IsRun(b)
    ensures IsRun(a + b)
  {
    forall i | 0 <= i < |a + b| ensures IsAreaDigit((a + b)[i]) {
      if i >= |a| {
        assert (a + b)[i] == b[i - |a|];
      }
    }
  }

  /** Stripping commas removes a comma between two parts. */
  lemma {:induction false} StripCommasDropComma(a: string, b: string)
    ensures StripCommas(a + "," + b) == StripCommas(a + b)
  {
    assert StripCommas(",") == [] by {
      assert ","[1..] == [];
    }
    calc {
      StripCommas(a + "," + b);
      { StripCommasAppend(a + ",", b); }
      StripCommas(a + ",") + StripCommas(b);
      { StripCommasAppend(a, ","); }
      StripCommas(a) + StripCommas(b);
      { StripCommasAppend(a, b); }
      StripCommas(a + b);
    }
  }

  /** Thousands separators are ignored: a comma anywhere in the run changes nothing. */
  lemma ParseCountIgnoresComma(a: string, b: string)
    requires IsRun(a) && IsRun(b)
    ensures IsRun(a + "," + b) && IsRun(a + b)
    ensures ParseCount(a + "," + b) == ParseCount(a + b)
  {
    IsRunAppend(a, ",");
    IsRunAppend(a + ",", b);
    IsRunAppend(a, b);
    StripCommasDropComma(a, b);
  }

  /** Reading back a decimal rendering gives the number rendered. */
  lemma ParseCountOfDecimal(n: nat)
    ensures IsRun(NatToString(n))
    ensures ParseCount(NatToString(n)) == Num(n as real)
  {
    StripCommasNoCommas(NatToString(n));
  }

  /** The number captured by a match of either pattern starting its run at `i`. */
  function Captured(s: string, i: nat): Number
    requires i < |s|
  {
    ParseCount(s[i..RunEnd(s, i)])
  }

  /** The `area` object: acres, square kilometres and hectares. */
  datatype AreaInfo = AreaInfo(acres: Number, km2: Number, hectares: Number)

  function Times(n: Number, factor: real): Number
  {
    if n.NaN? then NaN else Num(n.v * factor)
  }

  /** `Math.round(n * factor * 100) / 100` with the rounding as a parameter. */
  function Convert(n: Number, factor: real, round2: real -> real): Number
  {
    if n.NaN? then NaN else Num(round2(n.v * factor))
  }

  /** The number captured by `/([0-9,]+)\s*acres/i` at its leftmost match, if any. */
  function AcresFigure(text: string): (r: Option<Number>)
    ensures r.None? <==> forall i :: 0 <= i < |text| ==> !AcresAt(text, i)
    ensures forall i: nat :: FirstAt(text, 0, AcresAt, i) ==> r == Some(Captured(text, i))
  {
    match Leftmost(text, 0, AcresAt)
    case None => None
    case Some(i) => Some(Captured(text, i))
  }

  /** The number captured by `/\(([0-9,]+)\s*sq\s*mi\)/i` at its leftmost match, if any;
      the run starts just after the parenthesis. */
  function SqMiFigure(text: string): (r: Option<Number>)
    ensures r.None? <==> forall i :: 0 <= i < |text| ==> !SqMiAt(text, i)
    ensures forall i: nat :: FirstAt(text, 0, SqMiAt, i) ==> r == Some(Captured(text, i + 1))
  {
    match Leftmost(text, 0, SqMiAt)
    case None => None
    case Some(i) => Some(Captured(text, i + 1))
  }

  /** The area object built from an acres figure. */
  function FromAcres(acres: Number, round2: real -> real): (r: AreaInfo)
    ensures r.acres == acres
    ensures r.km2 == Convert(acres, 0.00404686, round2) && r.hectares == Convert(acres, 0.404686, round2)
  {
    AreaInfo(acres, Convert(acres, 0.00404686, round2), Convert(acres, 0.404686, round2))
  }

  /** The area object built from a square-mile figure, at 640 acres to the square mile. */
  function FromSqMi(sqMi: Number, round2: real -> real): (r: AreaInfo)
    ensures r.acres == Times(sqMi, 640.0)
    ensures r.km2 == Convert(sqMi, 2.58999, round2) && r.hectares == Convert(r.acres, 0.404686, round2)
  {
    var acres := Times(sqMi, 640.0);
    AreaInfo(acres, Convert(sqMi, 2.58999, round2), Convert(acres, 0.404686, round2))
  }

  /** `parseArea(areaText)`: `{}` (None) when neither pattern matches; the acres
      figure with its conversions when it is truthy or there is no square-mile
      figure (a zero or NaN acres figure alone is kept); otherwise the square-mile
      figure, at 640 acres each, with its conversions. */
  function ParseArea(text: string, round2: real -> real): (r: Option<AreaInfo>)
    ensures r.None? <==> AcresFigure(text).None? && SqMiFigure(text).None?
    ensures AcresFigure(text).Some? && (AcresFigure(text).value.Truthy() || SqMiFigure(text).None?) ==>
      r.Some? && r.value.acres == AcresFigure(text).value
      && r.value.km2 == Convert(AcresFigure(text).value, 0.00404686, round2)
      && r.value.hectares == Convert(AcresFigure(text).value, 0.404686, round2)
    ensures SqMiFigure(text).Some? && !(AcresFigure(text).Some? && AcresFigure(text).value.Truthy()) ==>
      r.Some? && r.value.acres == Times(SqMiFigure(text).value, 640.0)
      && r.value.km2 == Convert(SqMiFigure(text).value, 2.58999, round2)
      && r.value.hectares == Convert(Times(SqMiFigure(text).value, 640.0), 0.404686, round2)
  {
    var fromAcres: Option<AreaInfo> :=
      match AcresFigure(text)
      case None => None
      case Some(acres) => Some(FromAcres(acres, round2));
    match SqMiFigure(text)
    case Some(sqMi) =>
      if fromAcres.Some? && fromAcres.value.acres.Truthy() then fromAcres
      else Some(FromSqMi(sqMi, round2))
    case None => fromAcres
  }

  /** The run of digits and commas from `i` ends where such characters stop. */
  lemma {:induction false} RunEndAt(s: string, i: nat, j: nat)
    requires i <= j < |s| && !IsAreaDigit(s[j])
    requires forall k :: i <= k < j ==> IsAreaDigit(s[k])
    ensures RunEnd(s, i) == j
    decreases j - i
  {
    if i < j {
      RunEndAt(s, i + 1, j);
    }
  }

  /** `acres` can only match where the text has an `a` or an `A`. */
  lemma AcresNeedsA(text: string)
    requires 'a' !in text && 'A' !in text
    ensures AcresFigure(text).None?
  {
    forall i | 0 <= i < |text| ensures !AcresAt(text, i) {
      if AcresAt(text, i) {
        assert false;
      }
    }
  }

  /** The square-mile pattern can only match where the text has a `(`. */
  lemma SqMiNeedsParen(text: string)
    requires '(' !in text
    ensures SqMiFigure(text).None?
  {
    forall i | 0 <= i < |text| ensures !SqMiAt(text, i) {
      assert text[i] in text;
    }
  }

  /** A text that opens with a run of digits and commas, a space and `acres` yields
      that run's value as the acres figure, whatever follows. */
  lemma {:induction false} AcresFigureOfRun(run: string, rest: string)
    requires |run| > 0 && IsRun(run)
    ensures AcresFigure(run + " acres" + rest) == Some(ParseCount(run))
  {
    var t := run + " acres" + rest;
    var n := |run|;
    RunEndAt(t, 0, n);
    assert !IsSpace(t[n + 1]);
    assert SkipSpaces(t, n + 1) == n + 1;
    assert SkipSpaces(t, n) == n + 1;
    assert t[n + 1..n + 6] == "acres";
    assert WordAt(t, n + 1, "acres");
    assert AcresAt(t, 0);
    assert t[0..n] == run;
  }

  /** A text that opens with `(`, a run of digits and commas, ` sq mi` and `)` yields
      that run's value as the square-mile figure, whatever follows. */
  lemma {:induction false} SqMiFigureOfRun(run: string, rest: string)
    requires |run| > 0 && IsRun(run)
    ensures SqMiFigure("(" + run + " sq mi)" + rest) == Some(ParseCount(run))
  {
    var t := "(" + run + " sq mi)" + rest;
    SqMiAtStart(run, rest);
    assert FirstAt(t, 0, SqMiAt, 0);
  }

  /** The square-mile pattern matches at the start of `(<run> sq mi)…`, and the
      run it captures is `run`. */
  lemma SqMiAtStart(run: string, rest: string)
    requires |run| > 0 && IsRun(run)
    ensures var t := "(" + run + " sq mi)" + rest;
      SqMiAt(t, 0) && t[1..RunEnd(t, 1)] == run
  {
    var t := "(" + run + " sq mi)" + rest;
    var n := |run|;
    RunEndAt(t, 1, n + 1);
    SqMiWords(t, n);
    assert t[1..n + 1] == run;
  }

  /** After the run, ` sq mi)` is read word by word. */
  lemma SqMiWords(t: string, n: nat)
    requires n + 8 <= |t| && t[n + 1..n + 8] == " sq mi)"
    ensures SkipSpaces(t, n + 1) == n + 2 && WordAt(t, n + 2, "sq")
    ensures SkipSpaces(t, n + 4) == n + 5 && WordAt(t, n + 5, "mi") && t[n + 7] == ')'
  {
    var w := t[n + 1..n + 8];
    assert t[n + 1] == w[0] == ' ' && t[n + 2] == w[1] == 's' && t[n + 3] == w[2] == 'q';
    assert t[n + 4] == w[3] == ' ' && t[n + 5] == w[4] == 'm' && t[n + 6] == w[5] == 'i' && t[n + 7] == w[6] == ')';
    assert !IsSpace(t[n + 2]) && !IsSpace(t[n + 5]);
    assert SkipSpaces(t, n + 2) == n + 2;
    assert SkipSpaces(t, n + 5) == n + 5;
    assert t[n + 2..n + 4] == "sq";
    assert t[n + 5..n + 7] == "mi";
  }

  /** A decimal rendering holds no letter and no parenthesis. */
  lemma DecimalHasNoLetters(n: nat)
    ensures 'a' !in NatToString(n) && 'A' !in NatToString(n) && '(' !in NatToString(n)
  {
    var d := NatToString(n);
    forall i | 0 <= i < |d| ensures d[i] != 'a' && d[i] != 'A' && d[i] != '(' {
      assert IsDigit(d[i]);
    }
  }

  lemma SqMiHasNoA()
    ensures 'a' !in "(" && 'A' !in "(" && 'a' !in " sq mi)" && 'A' !in " sq mi)"
  {
    var w := " sq mi)";
    assert w == [' ', 's', 'q', ' ', 'm', 'i', ')'];
    forall i | 0 <= i < |w| ensures w[i] != 'a' && w[i] != 'A' {
    }
  }

  lemma AcresHasNoParen()
    ensures '(' !in " acres"
  {
    var w := " acres";
    assert w == [' ', 'a', 'c', 'r', 'e', 's'];
    forall i | 0 <= i < |w| ensures w[i] != '(' {
    }
  }

  /** An acres figure alone gives the area built from it. */
  lemma ParseAreaAcresOnly(text: string, round2: real -> real)
    requires AcresFigure(text).Some? && SqMiFigure(text).None?
    ensures ParseArea(text, round2) == Some(FromAcres(AcresFigure(text).value, round2))
  {
  }

  /** A square-mile figure alone gives the area built from it. */
  lemma ParseAreaSqMiOnly(text: string, round2: real -> real)
    requires SqMiFigure(text).Some? && AcresFigure(text).None?
    ensures ParseArea(text, round2) == Some(FromSqMi(SqMiFigure(text).value, round2))
  {
  }

  /** An acres figure written out in decimal reads back as that many acres, with
      both conversions taken from it. */
  lemma ParseAreaAcresRoundTrip(n: nat, round2: real -> real)
    ensures ParseArea(NatToString(n) + " acres", round2) == Some(FromAcres(Num(n as real), round2))
  {
    var d := NatToString(n);
    var t := d + " acres";
    ParseCountOfDecimal(n);
    AcresFigureOfRun(d, "");
    assert t + "" == t;
    DecimalHasNoLetters(n);
    AcresHasNoParen();
    SqMiNeedsParen(t);
    ParseAreaAcresOnly(t, round2);
  }

  /** A square-mile figure alone, written out in decimal, reads back as 640 acres to
      the square mile. */
  lemma ParseAreaSqMiRoundTrip(n: nat, round2: real -> real)
    ensures ParseArea("(" + NatToString(n) + " sq mi)", round2) == Some(FromSqMi(Num(n as real), round2))
  {
    var d := NatToString(n);
    var t := "(" + d + " sq mi)";
    ParseCountOfDecimal(n);
    SqMiFigureOfRun(d, "");
    assert t + "" == t;
    DecimalHasNoLetters(n);
    SqMiHasNoA();
    AcresNeedsA(t);
    ParseAreaSqMiOnly(t, round2);
  }

  // ---- convertToSchema and validateSite ----

  /** A site file as the crawler writes it; `coordinates` is `[lng, lat]`. */
  datatype SiteData = SiteData(
    id: Option<string>, name: string, description: string,
    lat: Option<Number>, lng: Option<Number>, state: Option<string>,
    coordinates: seq<Option<Number>>,
    area: Option<AreaInfo>, designation: Option<string>,
    source: string, lastUpdated: string, dataQuality: string)

  /** A template literal's rendering of a possibly missing value. */
  function Show(o: Option<string>, missing: string): string
  {
    if o.Some? then o.value else missing
  }

  const InventorySource := "Conservation Connector Site Inventory"

  /** `convertToSchema(site)`: a Point at `[lng, lat]`, the area only when the area
      text is non-empty and yields a non-empty object, the designation only when
      non-empty, and `medium` quality. */
  function ConvertToSchema(site: Site, today: string, round2: real -> real): (r: SiteData)
    ensures r.coordinates == [r.lng, r.lat]
    ensures site.coords.Some? ==> r.lat == Some(site.coords.value.0) && r.lng == Some(site.coords.value.1)
    ensures r.dataQuality == "medium" && r.source == InventorySource
    ensures r.area.Some? <==> site.areaText.Some? && site.areaText.value != "" && ParseArea(site.areaText.value, round2).Some?
    ensures r.designation.Some? <==> site.designation.Some? && site.designation.value != ""
    ensures r.designation.Some? ==> r.designation == site.designation
    ensures r.area.Some? ==> r.area == ParseArea(site.areaText.value, round2)
    ensures r.id == site.id && r.name == site.name && r.state == site.state
    ensures site.coords.None? ==> r.lat.None? && r.lng.None?
    ensures r.description == Show(site.designation, "undefined") + " in " + Show(site.state, "null")
    ensures r.lastUpdated == today
  {
    var lat := if site.coords.Some? then Some(site.coords.value.0) else None;
    var lng := if site.coords.Some? then Some(site.coords.value.1) else None;
    SiteData(
      site.id, site.name,
      Show(site.designation, "undefined") + " in " + Show(site.state, "null"),
      lat, lng, site.state, [lng, lat],
      if site.areaText.Some? && site.areaText.value != "" then ParseArea(site.areaText.value, round2) else None,
      if site.designation.Some? && site.designation.value != "" then site.designation else None,
      InventorySource, today, "medium")
  }

  /** `typeof x !== 'number' || x < lo || x > hi` is false: present, and NaN or within range. */
  predicate InRange(n: Option<Number>, lo: real, hi: real)
  {
    n.Some? && (n.value.NaN? || lo <= n.value.v <= hi)
  }

  predicate NonEmpty(o: Option<string>)
  {
    o.Some? && o.value != ""
  }

  /** `validateSite(data)`: the list of problems; the geometry and location
      objects always exist in a converted site, so their checks never fire. */
  function ValidateSite(d: SiteData): (r: seq<string>)
    ensures r == [] <==> NonEmpty(d.id) && d.name != "" && InRange(d.lat, -90.0, 90.0)
                         && InRange(d.lng, -180.0, 180.0) && NonEmpty(d.state)
    ensures "Invalid latitude" in r <==> !InRange(d.lat, -90.0, 90.0)
    ensures "Invalid longitude" in r <==> !InRange(d.lng, -180.0, 180.0)
  {
    (if NonEmpty(d.id) then [] else ["Missing or invalid id"])
    + (if d.name != "" then [] else ["Missing or invalid name"])
    + (if InRange(d.lat, -90.0, 90.0) then [] else ["Invalid latitude"])
    + (if InRange(d.lng, -180.0, 180.0) then [] else ["Invalid longitude"])
    + (if NonEmpty(d.state) then [] else ["Missing or invalid state"])
  }

  /** `parts.join(sep)`. */
  function JoinWith(parts: seq<string>, sep: string): string
  {
    if parts == [] then [] else if |parts| == 1 then parts[0] else parts[0] + sep + JoinWith(parts[1..], sep)
  }

  // ---- the crawl loop ----

  /** A JavaScript number used as a condition: present, not NaN and not zero. */
  predicate Truthy(n: Option<Number>)
  {
    n.Some? && n.value.Truthy()
  }

  /** One site's fate: its file written, or an error entry. */
  datatype Outcome = Written(filename: string, data: SiteData) | Rejected(site: string, error: string)

  /** One site of the loop: no id, a falsy latitude or longitude (missing, NaN or
      zero), or validation errors reject it; otherwise `<id>.json` is written. */
  function CrawlSite(site: Site, today: string, round2: real -> real): (r: Outcome)
    ensures r.Written? <==> (NonEmpty(site.id) && site.coords.Some?
      && site.coords.value.0.Truthy() && site.coords.value.1.Truthy()
      && ValidateSite(ConvertToSchema(site, today, round2)) == [])
    ensures r.Written? ==> r.filename == site.id.value + ".json" && r.data == ConvertToSchema(site, today, round2)
    ensures !NonEmpty(site.id) ==> r == Rejected(if site.name != "" then site.name else "Unknown", "Missing ID")
  {
    if !NonEmpty(site.id) then Rejected(if site.name != "" then site.name else "Unknown", "Missing ID")
    else if !(site.coords.Some? && site.coords.value.0.Truthy() && site.coords.value.1.Truthy()) then
      Rejected(site.name, "Missing coordinates")
    else
      var data := ConvertToSchema(site, today, round2);
      var problems := ValidateSite(data);
      if problems != [] then Rejected(site.name, JoinWith(problems, ", "))
      else Written(site.id.value + ".json", data)
  }

  /** The files written, the counters and the error list. */
  datatype Summary = Summary(files: seq<(string, SiteData)>, successCount: nat, errorCount: nat, errors: seq<(string, string)>)

  /** Every site's fate, in input order. */
  function Outcomes(sites: seq<Site>, today: string, round2: real -> real): (r: seq<Outcome>)
    ensures |r| == |sites|
    ensures forall i :: 0 <= i < |sites| ==> r[i] == CrawlSite(sites[i], today, round2)
  {
    if sites == [] then [] else [CrawlSite(sites[0], today, round2)] + Outcomes(sites[1..], today, round2)
  }

  /** The files of the written outcomes, in order. */
  function WrittenFiles(os: seq<Outcome>): (r: seq<(string, SiteData)>)
    ensures |r| <= |os|
    ensures forall i :: 0 <= i < |os| && os[i].Written? ==> (os[i].filename, os[i].data) in r
  {
    if os == [] then []
    else (if os[0].Written? then [(os[0].filename, os[0].data)] else []) + WrittenFiles(os[1..])
  }

  /** The error entries of the rejected outcomes, in order. */
  function RejectedEntries(os: seq<Outcome>): (r: seq<(string, string)>)
    ensures |r| + |WrittenFiles(os)| == |os|
    ensures forall i :: 0 <= i < |os| && os[i].Rejected? ==> (os[i].site, os[i].error) in r
  {
    if os == [] then []
    else (if os[0].Rejected? then [(os[0].site, os[0].error)] else []) + RejectedEntries(os[1..])
  }

  /** `crawlConservationSites()` after parsing: the files written are those of the
      sites `CrawlSite` accepts and the error list holds the entries of those it
      rejects, both in input order; every site is counted once, and every written
      file passed validation. */
  function CrawlAll(sites: seq<Site>, today: string, round2: real -> real): (r: Summary)
    ensures r.files == WrittenFiles(Outcomes(sites, today, round2))
    ensures r.errors == RejectedEntries(Outcomes(sites, today, round2))
    ensures r.successCount + r.errorCount == |sites|
    ensures |r.files| == r.successCount && |r.errors| == r.errorCount
    ensures forall i :: 0 <= i < |r.files| ==> ValidateSite(r.files[i].1) == [] && IsSuffix(".json", r.files[i].0)
  {
    if sites == [] then Summary([], 0, 0, [])
    else
      var o := CrawlSite(sites[0], today, round2);
      var rest := CrawlAll(sites[1..], today, round2);
      WrittenValidates(sites[0], today, round2);
      TallyStep(o, Outcomes(sites[1..], today, round2), rest);
      TallyFilesOk(o, rest);
      Tally(o, rest)
  }

  /** A written site's file is `<id>.json` and its record passes validation. */
  lemma WrittenValidates(site: Site, today: string, round2: real -> real)
    ensures var o := CrawlSite(site, today, round2);
      o.Written? ==> ValidateSite(o.data) == [] && IsSuffix(".json", o.filename)
  {
    var o := CrawlSite(site, today, round2);
    if o.Written? {
      var id := site.id.value;
      assert (id + ".json")[|id|..] == ".json";
    }
  }

  /** One more outcome added to the summary of the later ones. */
  function Tally(o: Outcome, rest: Summary): Summary
  {
    match o
    case Written(f, d) => Summary([(f, d)] + rest.files, rest.successCount + 1, rest.errorCount, rest.errors)
    case Rejected(n, e) => Summary(rest.files, rest.successCount, rest.errorCount + 1, [(n, e)] + rest.errors)
  }

  /** A written file as the crawler promises it: `<id>.json`, passing validation. */
  predicate FileOk(f: (string, SiteData))
  {
    ValidateSite(f.1) == [] && IsSuffix(".json", f.0)
  }

  /** The lists and counters after one more outcome. */
  lemma TallyStep(o: Outcome, os: seq<Outcome>, rest: Summary)
    requires rest.files == WrittenFiles(os) && rest.errors == RejectedEntries(os)
    requires rest.successCount + rest.errorCount == |os|
    requires |rest.files| == rest.successCount && |rest.errors| == rest.errorCount
    ensures var r := Tally(o, rest);
      && r.files == WrittenFiles([o] + os) && r.errors == RejectedEntries([o] + os)
      && r.successCount + r.errorCount == |os| + 1
      && |r.files| == r.successCount && |r.errors| == r.errorCount
  {
    ConsTail(o, os);
  }

  /** Every written file stays good when one more good outcome is added. */
  lemma TallyFilesOk(o: Outcome, rest: Summary)
    requires forall i :: 0 <= i < |rest.files| ==> FileOk(rest.files[i])
    requires o.Written? ==> FileOk((o.filename, o.data))
    ensures forall i :: 0 <= i < |Tally(o, rest).files| ==> FileOk(Tally(o, rest).files[i])
  {
    if o.Written? {
      var fs := [(o.filename, o.data)] + rest.files;
      assert Tally(o, rest).files == fs;
      forall i | 0 <= i < |fs| ensures FileOk(fs[i]) {
        if i > 0 {
          assert fs[i] == rest.files[i - 1];
        }
      }
    }
  }

  /** The falsy test rejects a site on the equator or the prime meridian as having no
      coordinates, although the validation accepts latitude 0. */
  lemma ZeroCoordinateRejected(site: Site, today: string, round2: real -> real)
    requires NonEmpty(site.id) && site.coords.Some?
    requires site.coords.value.0 == Num(0.0) || site.coords.value.1 == Num(0.0)
    ensures CrawlSite(site, today, round2) == Rejected(site.name, "Missing coordinates")
    ensures site.coords.value.0 == Num(0.0) ==> InRange(ConvertToSchema(site, today, round2).lat, -90.0, 90.0)
  {
  }
}
