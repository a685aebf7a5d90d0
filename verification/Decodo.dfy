/** Sticky proxy user names: built from their parts, and taken apart again by three regular expressions. */
module Decodo {
  import opened Records
  import opened Texts
  import opened Captures

  // ---------- text ----------

  function TrimEnd(s: string): string {
    if s != "" && IsBlank(s[|s| - 1]) then TrimEnd(s[..|s| - 1]) else s
  }

  function Trim(s: string): string { TrimEnd(TrimStart(s)) }

  /** No white space at either end. */
  predicate Tidy(s: string) {
    s == "" || (!IsBlank(s[0]) && !IsBlank(s[|s| - 1]))
  }

  lemma {:induction false} TrimEndKeepsStart(s: string)
    ensures TrimEnd(s) <= s && (TrimEnd(s) == "" || !IsBlank(TrimEnd(s)[|TrimEnd(s)| - 1]))
  {
    if s != "" && IsBlank(s[|s| - 1]) {
      TrimEndKeepsStart(s[..|s| - 1]);
    }
  }

  lemma {:induction false} TrimStartHead(s: string)
    ensures TrimStart(s) == "" || !IsBlank(TrimStart(s)[0])
    ensures s != "" && !IsBlank(s[|s| - 1]) ==> TrimStart(s) != "" && TrimStart(s)[|TrimStart(s)| - 1] == s[|s| - 1]
  {
    if s != "" && IsBlank(s[0]) {
      TrimStartHead(s[1..]);
    }
  }

  /** Trimming leaves tidy text, leaves tidy text alone, and does not empty text that ends in a character. */
  lemma TrimTidies(s: string)
    ensures Tidy(Trim(s)) && (Tidy(s) ==> Trim(s) == s)
    ensures s != "" && !IsBlank(s[|s| - 1]) ==> Trim(s) != ""
  {
    TrimStartHead(s);
    TrimEndKeepsStart(TrimStart(s));
    var r := TrimEnd(TrimStart(s));
    assert r != "" ==> r[0] == TrimStart(s)[0];
  }

  function Lower(s: string): (r: string)
    ensures |r| == |s| && forall i :: 0 <= i < |s| ==> r[i] == LowerAscii(s[i])
  {
    if s == "" then "" else [LowerAscii(s[0])] + Lower(s[1..])
  }

  predicate NoDash(s: string) { '-' !in s }

  /** Up to the first dash. */
  function Segment(s: string): (r: string)
    ensures r <= s && NoDash(r)
  {
    if s == "" || s[0] == '-' then "" else [s[0]] + Segment(s[1..])
  }

  predicate SameText(fold: bool, a: string, b: string) {
    |a| == |b| && forall i :: 0 <= i < |a| ==> if fold then LowerAscii(a[i]) == LowerAscii(b[i]) else a[i] == b[i]
  }

  predicate Starts(fold: bool, s: string, prefix: string) {
    |prefix| <= |s| && SameText(fold, s[..|prefix|], prefix)
  }

  // ---------- building ----------

  datatype Minutes = NotFinite | Finite(amount: real)

  function Truncate(x: real): int { if x >= 0.0 then x.Floor else -(-x).Floor }

  function ClampDuration(m: Minutes): (d: nat)
    ensures 1 <= d <= 1440
  {
    match m
    case NotFinite => 60
    case Finite(x) =>
      var t := Truncate(x);
      if t < 1 then 1 else if t > 1440 then 1440 else t
  }

  /** Any whole number of minutes in range is kept, a fraction is cut off, and the rest goes to the nearer end. */
  lemma ClampIsNearest(x: real)
    ensures var d := ClampDuration(Finite(x));
      && (1.0 <= x < 1441.0 ==> d as real <= x < d as real + 1.0)
      && (x < 1.0 ==> d == 1)
      && (x >= 1441.0 ==> d == 1440)
  {
  }

  function NormalizeBase(username: string): string {
    var trimmed := Trim(username);
    var withoutPrefix := if Starts(true, trimmed, "user-") then trimmed[5..] else trimmed;
    var base := Trim(Segment(withoutPrefix));
    if base != "" then base else withoutPrefix
  }

  /** `session` is None in port mode. */
  datatype Input = Input(username: string, session: Option<Option<string>>, country: Option<string>,
      minutes: Option<Minutes>)

  datatype BuildResult = Built(name: string) | MissingUsername | MissingSession

  function DurationOf(input: Input): nat {
    if input.minutes.None? then 60 else ClampDuration(input.minutes.value)
  }

  function CountryOf(input: Input): string {
    if input.country.None? then "" else Lower(Trim(input.country.value))
  }

  function SessionOf(input: Input): string {
    if input.session.None? || input.session.value.None? then "" else Trim(input.session.value.value)
  }

  /** Dash-separated parts, each preceded by its dash. */
  function Dashed(parts: seq<string>): string {
    if parts == [] then "" else "-" + parts[0] + Dashed(parts[1..])
  }

  function CountryParts(country: string): seq<string> { if country == "" then [] else ["country", country] }

  function SessionParts(input: Input): seq<string> { if input.session.None? then [] else ["session", SessionOf(input)] }

  function Params(input: Input): seq<string> {
    CountryParts(CountryOf(input)) + SessionParts(input) + ["sessionduration", Print(DurationOf(input))]
  }

  /** `buildDecodoUsername`. */
  function Build(input: Input): BuildResult {
    var base := NormalizeBase(input.username);
    if base == "" then MissingUsername
    else if input.session.Some? && SessionOf(input) == "" then MissingSession
    else Built("user" + Dashed([base] + Params(input)))
  }

  // ---------- parsing ----------

  /** A pattern of the parser: a dash, the key, a dash, and a capture of what follows. */
  datatype Pattern = Pattern(key: string, fold: bool, capture: string -> Option<string>)

  /** The leftmost match of the pattern. */
  function Find(p: Pattern, s: string): Option<string> {
    var marker := "-" + p.key + "-";
    if s == "" then None
    else if Starts(p.fold, s, marker) && p.capture(s[|marker|..]).Some? then p.capture(s[|marker|..])
    else Find(p, s[1..])
  }

  function CaptureSegment(s: string): Option<string> {
    if Segment(s) == "" then None else Some(Segment(s))
  }

  predicate IsLetter(c: char) { 'a' <= LowerAscii(c) <= 'z' }

  function CaptureTwoLetters(s: string): Option<string> {
    if |s| >= 2 && IsLetter(s[0]) && IsLetter(s[1]) && (|s| == 2 || s[2] == '-') then Some(s[..2]) else None
  }

  function CaptureDigits(s: string): Option<string> {
    if DigitPrefix(s) == "" then None else Some(DigitPrefix(s))
  }

  function SessionPattern(): Pattern { Pattern("session", false, CaptureSegment) }

  function CountryPattern(): Pattern { Pattern("country", true, CaptureTwoLetters) }

  function DurationPattern(): Pattern { Pattern("sessionduration", false, CaptureDigits) }

  datatype Parsed = Parsed(base: Option<string>, country: Option<string>, session: Option<string>,
      duration: Option<nat>)

  /** `parseDecodoUsername`; no name and the empty name give nothing. */
  function Parse(name: Option<string>): Parsed {
    if name.None? || name.value == "" then Parsed(None, None, None, None)
    else
      var country := Find(CountryPattern(), name.value);
      var digits := Find(DurationPattern(), name.value);
      var withoutPrefix := if Starts(true, name.value, "user-") then name.value[5..] else name.value;
      Parsed(CaptureSegment(withoutPrefix),
             if country.None? then None else Some(Lower(country.value)),
             Find(SessionPattern(), name.value),
             if digits.None? || !AllDigits(digits.value) then None else Some(ParseDigits(digits.value)))
  }

  // ---------- patterns on dash-separated parts ----------

  predicate AllParts(parts: seq<string>) {
    forall i :: 0 <= i < |parts| ==> NoDash(parts[i]) && parts[i] != ""
  }

  /** The capture that stands under the first key with one. */
  function Scan(p: Pattern, parts: seq<string>): Option<string> {
    if |parts| < 2 then None
    else if SameText(p.fold, parts[0], p.key) &&
        p.capture(parts[1] + Dashed(parts[2..])).Some? then p.capture(parts[1] + Dashed(parts[2..]))
    else Scan(p, parts[1..])
  }

  /** The first segment is the text before the first dash. */
  lemma {:induction false} SegmentOf(w: string, tail: string)
    requires NoDash(w) && (tail == "" || tail[0] == '-')
    ensures Segment(w + tail) == w
  {
    if w == "" {
      assert w + tail == tail;
    } else {
      SegmentOf(w[1..], tail);
      assert (w + tail)[1..] == w[1..] + tail;
    }
  }

  lemma {:induction false} SegmentEnds(s: string, n: nat)
    requires n < |s| && s[n] == '-' && forall i :: 0 <= i < n ==> s[i] != '-'
    ensures |Segment(s)| == n
  {
    if n > 0 {
      SegmentEnds(s[1..], n - 1);
    }
  }

  /** Folding case neither makes nor hides a dash. */
  lemma StartsAt(fold: bool, s: string, prefix: string, i: nat)
    requires Starts(fold, s, prefix) && i < |prefix|
    ensures if fold then LowerAscii(s[i]) == LowerAscii(prefix[i]) else s[i] == prefix[i]
    ensures s[i] == '-' <==> prefix[i] == '-'
  {
    assert s[..|prefix|][i] == s[i];
  }

  lemma StartsWithDash(fold: bool, s: string, key: string)
    ensures Starts(fold, s, "-" + key + "-") ==> s[0] == '-'
  {
    if Starts(fold, s, "-" + key + "-") {
      StartsAt(fold, s, "-" + key + "-", 0);
    }
  }

  /** A marker does not start inside a part. */
  lemma {:induction false} FindSkips(p: Pattern, w: string, s: string)
    requires NoDash(w)
    ensures Find(p, w + s) == Find(p, s)
  {
    if w == "" {
      assert w + s == s;
    } else {
      FindSkips(p, w[1..], s);
      var marker := "-" + p.key + "-";
      assert (w + s)[1..] == w[1..] + s;
      StartsWithDash(p.fold, w + s, p.key);
    }
  }

  /** The parts of a dash-separated text decide whether it starts with a marker. */
  lemma MarkerAtPart(fold: bool, key: string, part: string, rest: seq<string>)
    requires NoDash(key) && NoDash(part)
    ensures var s, marker := "-" + part + Dashed(rest), "-" + key + "-";
      && (Starts(fold, s, marker) <==> SameText(fold, part, key) && rest != [])
      && (Starts(fold, s, marker) ==> s[|marker|..] == rest[0] + Dashed(rest[1..]))
  {
    if Starts(fold, "-" + part + Dashed(rest), "-" + key + "-") {
      MarkerNeedsPart(fold, key, part, Dashed(rest));
    }
    if SameText(fold, part, key) && rest != [] {
      PartsMakeMarker(fold, key, part, rest);
    }
  }

  lemma PartsMakeMarker(fold: bool, key: string, part: string, rest: seq<string>)
    requires SameText(fold, part, key) && rest != []
    ensures var s, marker := "-" + part + Dashed(rest), "-" + key + "-";
      Starts(fold, s, marker) && s[|marker|..] == rest[0] + Dashed(rest[1..])
  {
    var tail := rest[0] + Dashed(rest[1..]);
    assert Dashed(rest) == "-" + tail;
    PartMakesMarker(fold, key, part, tail);
  }

  lemma PartMakesMarker(fold: bool, key: string, part: string, tail: string)
    requires SameText(fold, part, key)
    ensures var s, marker := "-" + part + ("-" + tail), "-" + key + "-";
      Starts(fold, s, marker) && s[|marker|..] == tail
  {
    var s := "-" + part + ("-" + tail);
    assert s[..|key| + 2] == "-" + part + "-";
  }

  lemma MarkerNeedsPart(fold: bool, key: string, part: string, tail: string)
    requires NoDash(key) && NoDash(part) && (tail == "" || tail[0] == '-')
    requires Starts(fold, "-" + part + tail, "-" + key + "-")
    ensures SameText(fold, part, key) && tail != ""
  {
    var s, marker := "-" + part + tail, "-" + key + "-";
    var rest := part + tail;
    assert s == "-" + rest;
    forall i: nat | i < |key|
      ensures rest[i] != '-'
      ensures if fold then LowerAscii(rest[i]) == LowerAscii(key[i]) else rest[i] == key[i]
    {
      StartsAt(fold, s, marker, i + 1);
      assert marker[i + 1] == key[i] && s[i + 1] == rest[i];
    }
    StartsAt(fold, s, marker, |key| + 1);
    SegmentEnds(rest, |key|);
    SegmentOf(part, tail);
    assert forall i :: 0 <= i < |part| ==> rest[i] == part[i];
  }

  lemma {:induction false} FindScans(p: Pattern, parts: seq<string>)
    requires NoDash(p.key) && AllParts(parts)
    ensures Find(p, Dashed(parts)) == Scan(p, parts)
  {
    if parts != [] {
      var s := Dashed(parts);
      MarkerAtPart(p.fold, p.key, parts[0], parts[1..]);
      FindScans(p, parts[1..]);
      FindSkips(p, parts[0], Dashed(parts[1..]));
      assert s[1..] == parts[0] + Dashed(parts[1..]);
      if |parts| > 1 {
        assert parts[1..][1..] == parts[2..] && parts[1..][0] == parts[1];
      }
    }
  }

  lemma {:induction false} DigitsOfParts(w: string, parts: seq<string>)
    requires AllDigits(w)
    ensures DigitPrefix(w + Dashed(parts)) == w
  {
    if w == "" {
      assert w + Dashed(parts) == Dashed(parts);
    } else {
      DigitsOfParts(w[1..], parts);
      assert (w + Dashed(parts))[1..] == w[1..] + Dashed(parts);
    }
  }

  // ---------- scanning the parts of a name ----------

  lemma ScanOver(p: Pattern, part: string, rest: seq<string>)
    requires SameText(p.fold, part, p.key) && rest != [] ==> p.capture(rest[0] + Dashed(rest[1..])).None?
    ensures Scan(p, [part] + rest) == Scan(p, rest)
  {
    var parts := [part] + rest;
    assert parts[1..] == rest;
    if rest != [] {
      assert parts[2..] == rest[1..] && parts[1] == rest[0];
    }
  }

  lemma ScanHit(p: Pattern, part: string, rest: seq<string>)
    requires rest != [] && SameText(p.fold, part, p.key) && p.capture(rest[0] + Dashed(rest[1..])).Some?
    ensures Scan(p, [part] + rest) == p.capture(rest[0] + Dashed(rest[1..]))
  {
    var parts := [part] + rest;
    assert parts[2..] == rest[1..] && parts[1] == rest[0];
  }

  lemma SegmentCaptured(part: string, rest: seq<string>)
    requires NoDash(part) && part != ""
    ensures CaptureSegment(part + Dashed(rest)) == Some(part)
  {
    SegmentOf(part, Dashed(rest));
  }

  predicate IsKeyword(s: string) { s == "country" || s == "session" || s == "sessionduration" }

  /** A keyword is neither a country code nor a number. */
  lemma KeywordsAreNoValues(s: string, rest: seq<string>)
    requires IsKeyword(s)
    ensures CaptureTwoLetters(s + Dashed(rest)).None? && CaptureDigits(s + Dashed(rest)).None?
    ensures NoDash(s) && s != ""
  {
    var t := s + Dashed(rest);
    assert t[0] == s[0] && t[2] == s[2];
  }

  predicate IsCountryCode(s: string) { |s| == 2 && IsLetter(s[0]) && IsLetter(s[1]) && Lower(s) == s }

  /** The parts behind the base: of a country, a session, and always a duration. */
  function ParamsOf(country: string, session: Option<string>, duration: nat): seq<string> {
    CountryParts(country) + LaterParts(session, duration)
  }

  ghost predicate Fit(base: string, country: string, session: Option<string>) {
    && base != "" && NoDash(base)
    && (country == "" || IsCountryCode(country))
    && (session.Some? ==> session.value != "" && NoDash(session.value))
  }

  lemma ParamsStartWithKeyword(country: string, session: Option<string>, duration: nat)
    ensures ParamsOf(country, session, duration) != [] && IsKeyword(ParamsOf(country, session, duration)[0])
  {
  }

  lemma LastParts(p: Pattern, duration: nat)
    requires p == SessionPattern() || p == CountryPattern() || p == DurationPattern()
    ensures Scan(p, ["sessionduration", Print(duration)]) == if p == DurationPattern() then Some(Print(duration))
      else None
  {
    var d := Print(duration);
    assert ["sessionduration", d] == ["sessionduration"] + [d] && [d][1..] == [];
    if p.key == "sessionduration" {
      DigitsOfParts(d, []);
      assert d + Dashed([]) == d;
      ScanHit(p, "sessionduration", [d]);
    } else {
      assert |p.key| == 7;
      ScanOver(p, "sessionduration", [d]);
    }
  }

  /** From the session on. */
  function LaterParts(session: Option<string>, duration: nat): seq<string> {
    (if session.None? then [] else ["session", session.value]) + ["sessionduration", Print(duration)]
  }

  lemma PastCountry(p: Pattern, country: string, later: seq<string>)
    requires p == SessionPattern() || p == DurationPattern()
    requires country == "" || IsCountryCode(country)
    ensures Scan(p, CountryParts(country) + later) == Scan(p, later)
  {
    if country == "" {
      assert CountryParts(country) + later == later;
    } else {
      assert CountryParts(country) + later == ["country"] + ([country] + later);
      assert "country"[0] == 'c' && p.key[0] == 's';
      ScanOver(p, country, later);
      ScanOver(p, "country", [country] + later);
    }
  }

  /** A session id under which this pattern finds nothing is passed over. */
  lemma PastSession(p: Pattern, session: Option<string>, duration: nat)
    requires p == CountryPattern() || p == DurationPattern()
    ensures Scan(p, LaterParts(session, duration)) == Scan(p, ["sessionduration", Print(duration)])
  {
    var last := ["sessionduration", Print(duration)];
    if session.None? {
      assert LaterParts(session, duration) == last;
    } else {
      assert LaterParts(session, duration) == ["session"] + ([session.value] + last);
      assert LowerAscii("session"[0]) == 's' && LowerAscii("country"[0]) == 'c';
      KeywordsAreNoValues("sessionduration", last[1..]);
      ScanOver(p, session.value, last);
      ScanOver(p, "session", [session.value] + last);
    }
  }

  lemma SessionFound(session: Option<string>, duration: nat)
    requires session.Some? ==> session.value != "" && NoDash(session.value)
    ensures Scan(SessionPattern(), LaterParts(session, duration)) == session
  {
    var last := ["sessionduration", Print(duration)];
    if session.None? {
      LastParts(SessionPattern(), duration);
      assert LaterParts(session, duration) == last;
    } else {
      var rest := [session.value] + last;
      assert LaterParts(session, duration) == ["session"] + rest && rest[1..] == last;
      SegmentCaptured(session.value, last);
      ScanHit(SessionPattern(), "session", rest);
    }
  }

  /** Under the session key. */
  lemma ScanForSession(base: string, country: string, session: Option<string>, duration: nat)
    requires Fit(base, country, session)
    ensures var params := ParamsOf(country, session, duration);
      Scan(SessionPattern(), [base] + params) == if base == "session" then Some(params[0]) else session
  {
    var params := ParamsOf(country, session, duration);
    if base == "session" {
      ParamsStartWithKeyword(country, session, duration);
      KeywordsAreNoValues(params[0], params[1..]);
      SegmentCaptured(params[0], params[1..]);
      ScanHit(SessionPattern(), base, params);
    } else {
      SessionFound(session, duration);
      PastCountry(SessionPattern(), country, LaterParts(session, duration));
      ScanOver(SessionPattern(), base, params);
    }
  }

  lemma CountryFound(country: string, later: seq<string>)
    requires IsCountryCode(country) && later != []
    ensures Scan(CountryPattern(), CountryParts(country) + later) == Some(country)
  {
    var rest := [country] + later;
    assert CountryParts(country) + later == ["country"] + rest && rest[1..] == later;
    assert (country + Dashed(later))[2] == '-' && (country + Dashed(later))[..2] == country;
    ScanHit(CountryPattern(), "country", rest);
  }

  /** A base that reads like a key has no value of that key behind it. */
  lemma PastBase(p: Pattern, base: string, country: string, session: Option<string>, duration: nat)
    requires p == CountryPattern() || p == DurationPattern()
    ensures Scan(p, [base] + ParamsOf(country, session, duration)) == Scan(p, ParamsOf(country, session, duration))
  {
    var params := ParamsOf(country, session, duration);
    ParamsStartWithKeyword(country, session, duration);
    KeywordsAreNoValues(params[0], params[1..]);
    ScanOver(p, base, params);
  }

  /** Under the country key. */
  lemma ScanForCountry(base: string, country: string, session: Option<string>, duration: nat)
    requires Fit(base, country, session)
    ensures Scan(CountryPattern(), [base] + ParamsOf(country, session, duration)) == if country == "" then None
      else Some(country)
  {
    var later := LaterParts(session, duration);
    PastBase(CountryPattern(), base, country, session, duration);
    if country == "" {
      assert CountryParts(country) + later == later;
      PastSession(CountryPattern(), session, duration);
      LastParts(CountryPattern(), duration);
    } else {
      CountryFound(country, later);
    }
  }

  /** Under the duration key. */
  lemma ScanForDuration(base: string, country: string, session: Option<string>, duration: nat)
    requires Fit(base, country, session)
    ensures Scan(DurationPattern(), [base] + ParamsOf(country, session, duration)) == Some(Print(duration))
  {
    PastBase(DurationPattern(), base, country, session, duration);
    PastCountry(DurationPattern(), country, LaterParts(session, duration));
    PastSession(DurationPattern(), session, duration);
    LastParts(DurationPattern(), duration);
  }

  // ---------- the round trip ----------

  function SessionWanted(input: Input): Option<string> {
    if input.session.None? then None else Some(SessionOf(input))
  }

  /** What the parser should find again. */
  function Wanted(input: Input): Parsed {
    Parsed(Some(NormalizeBase(input.username)), if CountryOf(input) == "" then None else Some(CountryOf(input)),
           SessionWanted(input), Some(DurationOf(input)))
  }

  /** A base without dashes, no country or a two-letter one, and in session mode an id without dashes. */
  ghost predicate WellFormed(input: Input) {
    Fit(NormalizeBase(input.username), CountryOf(input), SessionWanted(input))
  }

  lemma PatternOnName(p: Pattern, base: string, country: string, session: Option<string>, duration: nat)
    requires Fit(base, country, session) && NoDash(p.key)
    ensures Find(p, "user" + Dashed([base] + ParamsOf(country, session, duration)))
      == Scan(p, [base] + ParamsOf(country, session, duration))
  {
    var parts := [base] + ParamsOf(country, session, duration);
    DigitsHaveNoDash(Print(duration));
    FindSkips(p, "user", Dashed(parts));
    FindScans(p, parts);
  }

  lemma DigitsHaveNoDash(s: string)
    requires AllDigits(s)
    ensures NoDash(s)
  {
  }

  lemma BaseOfName(base: string, params: seq<string>)
    requires base != "" && NoDash(base)
    ensures var name := "user" + Dashed([base] + params);
      Starts(true, name, "user-") && name[5..] == base + Dashed(params) && Segment(name[5..]) == base
  {
    var name := "user" + Dashed([base] + params);
    assert ([base] + params)[1..] == params;
    assert name == "user-" + (base + Dashed(params));
    assert name[..5] == "user-";
    SegmentOf(base, Dashed(params));
  }

  lemma ParsedName(base: string, country: string, session: Option<string>, duration: nat)
    requires Fit(base, country, session)
    ensures var params := ParamsOf(country, session, duration);
      Parse(Some("user" + Dashed([base] + params))) ==
      Parsed(Some(base), if country == "" then None else Some(country), if base == "session" then Some(params[0])
          else session, Some(duration))
  {
    PatternOnName(SessionPattern(), base, country, session, duration);
    PatternOnName(CountryPattern(), base, country, session, duration);
    PatternOnName(DurationPattern(), base, country, session, duration);
    ScanForSession(base, country, session, duration);
    ScanForCountry(base, country, session, duration);
    ScanForDuration(base, country, session, duration);
    BaseOfName(base, ParamsOf(country, session, duration));
  }

  lemma BuiltFromParams(input: Input)
    requires WellFormed(input)
    ensures Params(input) == ParamsOf(CountryOf(input), SessionWanted(input), DurationOf(input))
    ensures Build(input) == Built("user" + Dashed([NormalizeBase(input.username)] + Params(input)))
  {
  }

  /** Parsing a built name finds base, country and duration again, always. It finds the session exactly when the base
      is not the word "session" itself, or the part that then follows the base happens to equal the session id. */
  lemma ParseUndoesBuild(input: Input)
    requires WellFormed(input)
    ensures Build(input).Built?
    ensures var parsed := Parse(Some(Build(input).name));
      && parsed.(session := None) == Wanted(input).(session := None)
      && (parsed == Wanted(input)
          <==> NormalizeBase(input.username) != "session" || SessionWanted(input) == Some(Params(input)[0]))
  {
    BuiltFromParams(input);
    ParsedName(NormalizeBase(input.username), CountryOf(input), SessionWanted(input), DurationOf(input));
  }

  // ---------- normalising a built name ----------

  /** A base without dashes is tidy. */
  lemma DashFreeBaseIsTidy(username: string)
    requires NoDash(NormalizeBase(username))
    ensures Tidy(NormalizeBase(username))
  {
    var trimmed := Trim(username);
    TrimTidies(username);
    var w := if Starts(true, trimmed, "user-") then trimmed[5..] else trimmed;
    TrimTidies(Segment(w));
    if Trim(Segment(w)) == "" && w != "" {
      SegmentOf(w, "");
      assert w + "" == w;
      assert w[|w| - 1] == trimmed[|trimmed| - 1];
      TrimTidies(w);
    }
  }

  lemma {:induction false} DashedEnds(parts: seq<string>, last: string)
    requires last != ""
    ensures var s := Dashed(parts + [last]); s != "" && s[|s| - 1] == last[|last| - 1]
  {
    if parts == [] {
      assert Dashed([last]) == "-" + last + Dashed([last][1..]);
      assert Dashed([last]) == "-" + last;
    } else {
      DashedEnds(parts[1..], last);
      assert (parts + [last])[1..] == parts[1..] + [last];
    }
  }

  lemma NameIsTidy(base: string, front: seq<string>, digits: string)
    requires digits != "" && AllDigits(digits)
    ensures Trim("user" + Dashed([base] + (front + [digits]))) == "user" + Dashed([base] + (front + [digits]))
  {
    var name := "user" + Dashed([base] + (front + [digits]));
    DashedEnds([base] + front, digits);
    assert [base] + (front + [digits]) == ([base] + front) + [digits];
    assert name[|name| - 1] == digits[|digits| - 1] && IsDigit(digits[|digits| - 1]) && name[0] == 'u';
    TrimTidies(name);
  }

  lemma NormalizeName(base: string, params: seq<string>)
    requires base != "" && NoDash(base) && Tidy(base)
    requires Trim("user" + Dashed([base] + params)) == "user" + Dashed([base] + params)
    ensures NormalizeBase("user" + Dashed([base] + params)) == base
  {
    BaseOfName(base, params);
    TrimTidies(base);
  }

  /** Normalising a built name gives back the base it was built from. */
  lemma NormalizeUndoesBuild(input: Input)
    requires WellFormed(input)
    ensures Build(input).Built? && NormalizeBase(Build(input).name) == NormalizeBase(input.username)
  {
    var base, params := NormalizeBase(input.username), Params(input);
    var front, digits := params[..|params| - 1], Print(DurationOf(input));
    assert params == front + [digits];
    NameIsTidy(base, front, digits);
    DashFreeBaseIsTidy(input.username);
    NormalizeName(base, params);
  }

  /** The base "session" is taken for the session key, and the country key for the session id. */
  lemma SessionBaseIsMisread(base: string, country: string, id: string)
    requires base == "session" && country == "co" && id == "abc"
    ensures Fit(base, country, Some(id))
    ensures Parse(Some("user" + Dashed([base] + ParamsOf(country, Some(id), 60)))).session == Some("country")
  {
    assert Lower(country) == country;
    ParsedName(base, country, Some(id), 60);
    CountryComesFirst(country, LaterParts(Some(id), 60));
  }

  lemma CountryComesFirst(country: string, later: seq<string>)
    requires country != ""
    ensures (CountryParts(country) + later)[0] == "country"
  {
  }

  // ---------- the parts of a name ----------

  lemma {:induction false} TrimEndMeans(rest: string, blank: string)
    requires AllBlank(blank) && (rest == "" || !IsBlank(rest[|rest| - 1]))
    ensures TrimEnd(rest + blank) == rest
    decreases |blank|
  {
    if blank == "" {
      assert rest + blank == rest;
    } else {
      var front := blank[..|blank| - 1];
      TrimEndMeans(rest, front);
      assert (rest + blank)[..|rest + blank| - 1] == rest + front;
    }
  }

  /** Trimming drops the white space at both ends and nothing else. */
  lemma TrimMeans(before: string, text: string, after: string)
    requires AllBlank(before) && AllBlank(after) && Tidy(text)
    ensures Trim(before + text + after) == text
  {
    if text == "" {
      assert before + text + after == (before + after) + "";
      TrimStartMeans(before + after, "");
    } else {
      assert before + text + after == before + (text + after);
      TrimStartMeans(before, text + after);
      TrimEndMeans(text, after);
    }
  }

  /** Country and session as given, without white space around them, the country in small letters; none stands for the
      empty text. */
  lemma CountryAndSessionMean(input: Input, before: string, text: string, after: string)
    requires AllBlank(before) && AllBlank(after) && Tidy(text)
    ensures input.country == None ==> CountryOf(input) == ""
    ensures input.country == Some(before + text + after) ==>
      |CountryOf(input)| == |text| && forall i :: 0 <= i < |text| ==> CountryOf(input)[i] == LowerAscii(text[i])
    ensures input.session == Some(Some(before + text + after)) ==> SessionOf(input) == text
    ensures input.session == None || input.session == Some(None) ==> SessionOf(input) == ""
  {
    TrimMeans(before, text, after);
  }

  /** An hour unless something else is asked for; whole minutes between one and a day of them are kept, fractions cut
      off, and what lies outside goes to the nearer end. */
  lemma DurationMeans(input: Input)
    ensures input.minutes == None || input.minutes == Some(NotFinite) ==> DurationOf(input) == 60
    ensures input.minutes.Some? && input.minutes.value.Finite? ==>
      var x, d := input.minutes.value.amount, DurationOf(input);
      && (1.0 <= x < 1441.0 ==> d as real <= x < d as real + 1.0)
      && (x < 1.0 ==> d == 1) && (x >= 1441.0 ==> d == 1440)
  {
    if input.minutes.Some? && input.minutes.value.Finite? {
      ClampIsNearest(input.minutes.value.amount);
    }
  }

  /** The base of a user name: behind a "user-" in any case, up to the first dash, without white space; when nothing is
      left of that, all that stands behind the prefix. */
  lemma BaseMeans(before: string, prefix: string, first: string, rest: string, after: string)
    requires AllBlank(before) && AllBlank(after) && Tidy(prefix + (first + rest))
    requires NoDash(first) && (rest == "" || rest[0] == '-')
    requires if prefix == "" then !Starts(true, first + rest, "user-") else SameText(true, prefix, "user-")
    ensures NormalizeBase(before + (prefix + (first + rest)) + after)
      == if Trim(first) != "" then Trim(first) else first + rest
  {
    var text := prefix + (first + rest);
    TrimMeans(before, text, after);
    if prefix == "" {
      assert text == first + rest;
    } else {
      assert text[..5] == prefix && text[5..] == first + rest;
    }
    SegmentOf(first, rest);
  }

  /** When no name is built. */
  lemma BuildNeeds(input: Input)
    ensures var base, session := NormalizeBase(input.username), SessionOf(input);
      && (Build(input) == MissingUsername <==> base == "")
      && (Build(input) == MissingSession <==> base != "" && input.session != None && session == "")
  {
  }

  /** A built name, spelled out. */
  lemma BuildMeans(input: Input)
    requires Build(input).Built?
    ensures var base, country, session := NormalizeBase(input.username), CountryOf(input), SessionOf(input);
      Build(input).name == "user-" + base + (if country == "" then "" else "-country-" + country)
        + (if input.session == None then "" else "-session-" + session) + "-sessionduration-" + Print(DurationOf(input))
  {
    var base, country := NormalizeBase(input.username), CountryOf(input);
    var last := ["sessionduration", Print(DurationOf(input))];
    assert Params(input) == CountryParts(country) + SessionParts(input) + last;
    SpelledOut(base, CountryParts(country), SessionParts(input), last);
    CountrySpelled(country);
    SessionSpelled(input);
    DurationSpelled(Print(DurationOf(input)));
    Regroup("user-" + base, Dashed(CountryParts(country)), Dashed(SessionParts(input)), "-sessionduration-",
      Print(DurationOf(input)));
  }

  lemma DurationSpelled(digits: string)
    ensures Dashed(["sessionduration", digits]) == "-sessionduration-" + digits
  {
    DashedPair("sessionduration", digits);
  }

  lemma CountrySpelled(country: string)
    ensures Dashed(CountryParts(country)) == if country == "" then "" else "-country-" + country
  {
    if country != "" {
      DashedPair("country", country);
    }
  }

  lemma SessionSpelled(input: Input)
    ensures Dashed(SessionParts(input)) == if input.session == None then "" else "-session-" + SessionOf(input)
  {
    if input.session != None {
      DashedPair("session", SessionOf(input));
    }
  }

  lemma Regroup(a: string, b: string, c: string, d: string, e: string)
    ensures a + b + c + (d + e) == a + b + c + d + e
  {
  }

  lemma DashedPair(key: string, part: string)
    ensures Dashed([key, part]) == "-" + key + "-" + part
  {
    assert [key, part][1..] == [part];
    assert Dashed([part]) == "-" + part;
  }

  lemma {:induction false} DashedConcat(a: seq<string>, b: seq<string>)
    ensures Dashed(a + b) == Dashed(a) + Dashed(b)
  {
    if a == [] {
      assert a + b == b;
    } else {
      DashedConcat(a[1..], b);
      assert (a + b)[1..] == a[1..] + b;
    }
  }

  lemma SpelledOut(base: string, country: seq<string>, session: seq<string>, duration: seq<string>)
    ensures "user" + Dashed([base] + (country + session + duration))
      == "user-" + base + Dashed(country) + Dashed(session) + Dashed(duration)
  {
    var params := country + session + duration;
    DashedConcat(country + session, duration);
    DashedConcat(country, session);
    assert ([base] + params)[1..] == params;
    BehindTheBase(base, Dashed(country), Dashed(session), Dashed(duration));
  }

  lemma BehindTheBase(base: string, a: string, b: string, c: string)
    ensures "user" + ("-" + base + (a + b + c)) == "user-" + base + a + b + c
  {
  }

  // ---------- the captures of the parser ----------

  /** The pattern matches at `i`. */
  ghost predicate MatchesAt(p: Pattern, s: string, i: nat) {
    && i < |s| && Starts(p.fold, s[i..], "-" + p.key + "-") && i + |p.key| + 2 <= |s|
    && p.capture(s[i + |p.key| + 2..]).Some?
  }

  /** What is found is captured at the leftmost match, and nothing is found iff there is none. */
  ghost predicate IsLeftmost(p: Pattern, s: string, found: Option<string>) {
    match found
    case None => forall i: nat :: !MatchesAt(p, s, i)
    case Some(_) => exists i: nat :: MatchesFirstAt(p, s, i) && p.capture(s[i + |p.key| + 2..]) == found
  }

  ghost predicate MatchesFirstAt(p: Pattern, s: string, i: nat)
    ensures MatchesFirstAt(p, s, i) ==> i + |p.key| + 2 <= |s|
  {
    MatchesAt(p, s, i) && forall j: nat :: j < i ==> !MatchesAt(p, s, j)
  }

  lemma {:induction false} FindIsLeftmost(p: Pattern, s: string)
    ensures IsLeftmost(p, s, Find(p, s))
  {
    if s != "" {
      assert s[0..] == s && |"-" + p.key + "-"| == |p.key| + 2;
      if MatchesAt(p, s, 0) {
        assert MatchesFirstAt(p, s, 0);
      } else {
        FindIsLeftmost(p, s[1..]);
        LeftmostMoves(p, s, Find(p, s[1..]));
      }
    }
  }

  lemma LeftmostMoves(p: Pattern, s: string, found: Option<string>)
    requires s != "" && !MatchesAt(p, s, 0) && IsLeftmost(p, s[1..], found)
    ensures IsLeftmost(p, s, found)
  {
    forall i: nat
      ensures MatchesAt(p, s, i) <==> i > 0 && MatchesAt(p, s[1..], i - 1)
    {
      if 0 < i < |s| {
        MatchMoves(p, s, i);
      }
    }
    if found.Some? {
      var i: nat :| MatchesFirstAt(p, s[1..], i) && p.capture(s[1..][i + |p.key| + 2..]) == found;
      TailMoves(s, i + |p.key| + 2);
      FirstMoves(p, s, i);
    }
  }

  lemma TailMoves(s: string, n: nat)
    requires n < |s|
    ensures s[1..][n..] == s[n + 1..]
  {
  }

  lemma FirstMoves(p: Pattern, s: string, i: nat)
    requires s != "" && MatchesFirstAt(p, s[1..], i)
    requires forall j: nat :: MatchesAt(p, s, j) <==> j > 0 && MatchesAt(p, s[1..], j - 1)
    ensures MatchesFirstAt(p, s, i + 1)
  {
    assert MatchesAt(p, s, i + 1);
  }

  lemma MatchMoves(p: Pattern, s: string, i: nat)
    requires 0 < i < |s|
    ensures MatchesAt(p, s, i) <==> MatchesAt(p, s[1..], i - 1)
  {
    assert s[1..][i - 1..] == s[i..];
    if Starts(p.fold, s[i..], "-" + p.key + "-") {
      assert s[1..][i - 1 + |p.key| + 2..] == s[i + |p.key| + 2..];
    }
  }

  /** What the parser reads: the text up to the first dash behind a "user-" in any case, and the captures of the three
      patterns, the country in small letters, the duration as a number. */
  lemma ParseMeans(name: string, prefix: string, first: string, rest: string)
    requires name == prefix + (first + rest) && name != "" && NoDash(first) && (rest == "" || rest[0] == '-')
    requires if prefix == "" then !Starts(true, name, "user-") else SameText(true, prefix, "user-")
    ensures var parsed := Parse(Some(name));
      && parsed.base == (if first == "" then None else Some(first))
      && parsed.session == Find(Pattern("session", false, CaptureSegment), name)
      && parsed.country == (match Find(Pattern("country", true, CaptureTwoLetters), name)
        case None => None
        case Some(c) => Some(Lower(c)))
      && var digits := Find(Pattern("sessionduration", false, CaptureDigits), name);
      && (digits == None ==> parsed.duration == None)
      && (digits != None ==> AllDigits(digits.value) && parsed.duration == Some(ParseDigits(digits.value)))
  {
    SegmentOf(first, rest);
    if prefix == "" {
      assert name == first + rest;
    } else {
      assert name[..5] == prefix && name[5..] == first + rest;
    }
    FoundDigits(name);
  }

  lemma {:induction false} FoundDigits(s: string)
    ensures var found := Find(DurationPattern(), s); found != None ==> AllDigits(found.value)
  {
    if s != "" {
      FoundDigits(s[1..]);
    }
  }

  /** What the three captures take: up to the next dash, two letters before a dash or the end, all digits. */
  lemma CapturesMean(s: string)
    ensures CaptureSegment(s) == None <==> s == "" || s[0] == '-'
    ensures CaptureTwoLetters(s) == None
       <==> |s| < 2 || !IsLetter(s[0]) || !IsLetter(s[1]) || (|s| > 2 && s[2] != '-')
    ensures CaptureTwoLetters(s) != None ==> CaptureTwoLetters(s).value == s[..2]
    ensures CaptureDigits(s) == None <==> s == "" || !IsDigit(s[0])
    ensures s != "" ==> (IsLetter(s[0]) <==> 'a' <= s[0] <= 'z' || 'A' <= s[0] <= 'Z')
  {
  }
}
