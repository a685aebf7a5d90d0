/** Homogeneous branding: a phrase shared by most of a host's listing titles. */
module Phrases {

  /** What tokenising leaves: no blanks inside, and more than one character. */
  type Word = w: string | |w| >= 2 && ' ' !in w witness "ab"

  /** Trimming, tokenising and the stop words are data of the detector. */
  datatype TitleRules = TitleRules(trim: string -> string, tokens: string -> seq<Word>, stop: string -> bool)

  const MIN_LISTINGS := 3
  const MIN_PHRASE_WORDS := 2
  const MIN_PHRASE_CHARS := 6
  const MAX_PHRASE_WORDS := 4

  // ---------- phrases ----------

  function Join(ws: seq<string>): string {
    if ws == [] then "" else if |ws| == 1 then ws[0] else ws[0] + " " + Join(ws[1..])
  }

  function Split(s: string): (parts: seq<string>)
    ensures parts != []
  {
    if s == "" then [""]
    else
      var rest := Split(s[1..]);
      if s[0] == ' ' then [""] + rest else [[s[0]] + rest[0]] + rest[1..]
  }

  function NonEmpty(ws: seq<string>): seq<string> {
    if ws == [] then [] else (if ws[0] == "" then [] else [ws[0]]) + NonEmpty(ws[1..])
  }

  predicate IsSignificant(rules: TitleRules, phrase: string) {
    var words := NonEmpty(Split(phrase));
    && |words| >= MIN_PHRASE_WORDS
    && |phrase| >= MIN_PHRASE_CHARS
    && exists i :: 0 <= i < |words| && !rules.stop(words[i])
  }

  lemma {:induction false} SplitWord(w: string, rest: string)
    requires ' ' !in w
    ensures Split(w + " " + rest) == [w] + Split(rest)
  {
    if w == "" {
      assert (w + " " + rest)[1..] == rest;
    } else {
      SplitWord(w[1..], rest);
      assert (w + " " + rest)[1..] == w[1..] + " " + rest;
      assert [w[0]] + w[1..] == w;
    }
  }

  lemma {:induction false} SplitLastWord(w: string)
    requires ' ' !in w
    ensures Split(w) == [w]
  {
    if w != "" {
      SplitLastWord(w[1..]);
      assert [w[0]] + w[1..] == w;
    }
  }

  /** Splitting a phrase gives back the words it was joined from, so equal phrases have equal words. */
  lemma {:induction false} SplitUndoesJoin(ws: seq<Word>)
    requires ws != []
    ensures Split(Join(ws)) == ws && NonEmpty(ws) == ws
  {
    if |ws| == 1 {
      SplitLastWord(ws[0]);
      assert ws[1..] == [];
    } else {
      SplitUndoesJoin(ws[1..]);
      SplitWord(ws[0], Join(ws[1..]));
    }
  }

  lemma {:induction false} JoinLength(ws: seq<Word>)
    requires ws != []
    ensures |Join(ws)| >= 3 * |ws| - 1
  {
    if |ws| > 1 {
      JoinLength(ws[1..]);
    }
  }

  /** Three words are always long enough; their phrase is significant as soon as one of them is not a stop word. */
  lemma ThreeWordsAreEnough(rules: TitleRules, ws: seq<Word>)
    requires |ws| >= 3
    ensures IsSignificant(rules, Join(ws)) <==> exists i :: 0 <= i < |ws| && !rules.stop(ws[i])
  {
    SplitUndoesJoin(ws);
    JoinLength(ws);
  }

  ghost predicate WindowOf(words: seq<Word>, n: nat, i: nat, phrase: string) {
    i + n <= |words| && phrase == Join(words[i..i + n])
  }

  /** `phrase` is a significant run of at most `cap` words of the title. */
  ghost predicate IsCandidate(rules: TitleRules, cap: nat, words: seq<Word>, phrase: string) {
    IsSignificant(rules, phrase) && exists n: nat, i: nat ::
        MIN_PHRASE_WORDS <= n <= cap && WindowOf(words, n, i, phrase)
  }

  ghost predicate IsEarlier(rules: TitleRules, words: seq<Word>, n: nat, i: int, phrase: string) {
    IsSignificant(rules, phrase) && exists j: nat :: j < i && WindowOf(words, n, j, phrase)
  }

  /** `extractCandidatePhrases`. */
  method ExtractCandidatePhrases(rules: TitleRules, words: seq<Word>) returns (phrases: seq<string>)
    ensures forall p :: p in phrases <==> IsCandidate(rules, MAX_PHRASE_WORDS, words, p)
  {
    phrases := [];
    var maxN := if |words| < MAX_PHRASE_WORDS then |words| else MAX_PHRASE_WORDS;
    var n := MIN_PHRASE_WORDS;
    while n <= maxN
      invariant MIN_PHRASE_WORDS <= n <= MAX_PHRASE_WORDS + 1
      invariant n <= maxN + 1 || maxN < MIN_PHRASE_WORDS
      invariant forall p :: p in phrases <==> IsCandidate(rules, n - 1, words, p)
    {
      var i := 0;
      while i <= |words| - n
        invariant 0 <= i <= |words| - n + 1
        invariant forall p :: p in phrases <==> IsCandidate(rules, n - 1, words, p) || IsEarlier(rules, words, n, i, p)
      {
        var phrase := Join(words[i..i + n]);
        assert WindowOf(words, n, i, phrase);
        if IsSignificant(rules, phrase) {
          phrases := phrases + [phrase];
        }
        i := i + 1;
      }
      n := n + 1;
    }
  }

  // ---------- counting ----------

  function Titles(rules: TitleRules, names: seq<string>): seq<string> {
    if names == [] then []
    else Titles(rules, names[..|names| - 1]) + TitleOf(rules, names[|names| - 1])
  }

  /** A name that is blank after trimming is dropped. */
  function TitleOf(rules: TitleRules, name: string): seq<string> {
    if rules.trim(name) == "" then [] else [rules.trim(name)]
  }

  ghost function Hit(rules: TitleRules, cap: nat, phrase: string, title: string): nat {
    if IsCandidate(rules, cap, rules.tokens(title), phrase) then 1 else 0
  }

  /** In how many of the titles the phrase occurs. */
  ghost function Hits(rules: TitleRules, cap: nat, phrase: string, titles: seq<string>): nat {
    if titles == [] then 0
    else Hits(rules, cap, phrase, titles[..|titles| - 1]) + Hit(rules, cap, phrase, titles[|titles| - 1])
  }

  /** Six tenths of the titles, rounded up. */
  function Threshold(n: nat): nat { (3 * n + 4) / 5 }

  lemma ThresholdIsCeiling(n: nat)
    ensures 10 * Threshold(n) >= 6 * n && 10 * (Threshold(n) - 1) < 6 * n
  {
  }

  ghost predicate Homogeneous(rules: TitleRules, cap: nat, names: seq<string>) {
    var titles := Titles(rules, names);
    |titles| >= MIN_LISTINGS && exists p :: Hits(rules, cap, p, titles) >= Threshold(|titles|)
  }

  function HitsIn(hits: map<string, nat>, phrase: string): nat { if phrase in hits then hits[phrase] else 0 }

  ghost predicate Counts(rules: TitleRules, titles: seq<string>, hits: map<string, nat>) {
    forall p :: Hits(rules, MAX_PHRASE_WORDS, p, titles) == HitsIn(hits, p)
  }

  /** One title: each of its phrases counts once, however often it occurs. */
  method CountTitle(rules: TitleRules, ghost done: seq<string>, title: string, hits: map<string, nat>)
    returns (more: map<string, nat>)
    requires Counts(rules, done, hits)
    ensures Counts(rules, done + [title], more)
  {
    more := hits;
    var phrases := ExtractCandidatePhrases(rules, rules.tokens(title));
    var distinct := set p | p in phrases;
    var left := distinct;
    while left != {}
      invariant left <= distinct
      invariant forall p :: HitsIn(more, p) == Hits(rules, MAX_PHRASE_WORDS, p, done) + if p in distinct - left then 1
        else 0
      decreases left
    {
      var phrase :| phrase in left;
      left := left - {phrase};
      more := more[phrase := HitsIn(more, phrase) + 1];
    }
    assert (done + [title])[..|done|] == done;
  }

  /** `hasHomogeneousListingBranding`, by a map of counters. */
  method HasHomogeneousListingBranding(rules: TitleRules, names: seq<string>) returns (shared: bool)
    ensures shared <==> Homogeneous(rules, MAX_PHRASE_WORDS, names)
  {
    var titles := Titles(rules, names);
    if |titles| < MIN_LISTINGS {
      return false;
    }
    var threshold := Threshold(|titles|);
    var phraseHits: map<string, nat> := map[];
    var i := 0;
    while i < |titles|
      invariant 0 <= i <= |titles|
      invariant Counts(rules, titles[..i], phraseHits)
    {
      phraseHits := CountTitle(rules, titles[..i], titles[i], phraseHits);
      assert titles[..i + 1] == titles[..i] + [titles[i]];
      i := i + 1;
    }
    assert titles[..i] == titles;
    var left := phraseHits.Keys;
    while left != {}
      invariant left <= phraseHits.Keys
      invariant forall p :: p in phraseHits && p !in left ==> phraseHits[p] < threshold
      decreases left
    {
      var phrase :| phrase in left;
      if phraseHits[phrase] >= threshold {
        assert Hits(rules, MAX_PHRASE_WORDS, phrase, titles) >= threshold;
        return true;
      }
      left := left - {phrase};
    }
    return false;
  }

  // ---------- the order of the titles does not matter ----------

  function Without<T>(s: seq<T>, j: nat): seq<T>
    requires j < |s|
  {
    s[..j] + s[j + 1..]
  }

  lemma WithoutIsMultiset<T>(s: seq<T>, j: nat)
    requires j < |s|
    ensures multiset(s) == multiset(Without(s, j)) + multiset{s[j]}
  {
    assert s == s[..j] + [s[j]] + s[j + 1..];
  }

  lemma RemoveSame<T>(a: seq<T>, i: nat, b: seq<T>, j: nat)
    requires i < |a| && j < |b| && a[i] == b[j] && multiset(a) == multiset(b)
    ensures multiset(Without(a, i)) == multiset(Without(b, j))
  {
    WithoutIsMultiset(a, i);
    WithoutIsMultiset(b, j);
    assert multiset(Without(a, i)) == multiset(a) - multiset{a[i]};
    assert multiset(Without(b, j)) == multiset(b) - multiset{b[j]};
  }

  lemma {:induction false} HitsConcat(rules: TitleRules, cap: nat, p: string, a: seq<string>, b: seq<string>)
    ensures Hits(rules, cap, p, a + b) == Hits(rules, cap, p, a) + Hits(rules, cap, p, b)
    decreases |b|
  {
    if b == [] {
      assert a + b == a;
    } else {
      HitsConcat(rules, cap, p, a, b[..|b| - 1]);
      assert (a + b)[..|a + b| - 1] == a + b[..|b| - 1];
    }
  }

  lemma HitsWithout(rules: TitleRules, cap: nat, p: string, titles: seq<string>, j: nat)
    requires j < |titles|
    ensures Hits(rules, cap, p, titles) == Hits(rules, cap, p, Without(titles, j)) + Hit(rules, cap, p, titles[j])
  {
    var before, here, after := titles[..j], [titles[j]], titles[j + 1..];
    assert titles == before + here + after;
    HitsConcat(rules, cap, p, before + here, after);
    HitsConcat(rules, cap, p, before, here);
    HitsConcat(rules, cap, p, before, after);
    assert here[..0] == [];
  }

  lemma {:induction false} HitsOfPermutation(rules: TitleRules, cap: nat, p: string, a: seq<string>, b: seq<string>)
    requires multiset(a) == multiset(b)
    ensures Hits(rules, cap, p, a) == Hits(rules, cap, p, b)
    decreases |a|
  {
    if a == [] {
      assert |multiset(b)| == 0;
      assert b == [];
    } else {
      var last := |a| - 1;
      assert a[last] in multiset(b);
      var j :| 0 <= j < |b| && b[j] == a[last];
      RemoveSame(a, last, b, j);
      assert Without(a, last) == a[..last];
      HitsOfPermutation(rules, cap, p, a[..last], Without(b, j));
      HitsWithout(rules, cap, p, b, j);
    }
  }

  lemma {:induction false} TitlesConcat(rules: TitleRules, a: seq<string>, b: seq<string>)
    ensures Titles(rules, a + b) == Titles(rules, a) + Titles(rules, b)
    decreases |b|
  {
    if b == [] {
      assert a + b == a;
    } else {
      var front := b[..|b| - 1];
      TitlesConcat(rules, a, front);
      assert (a + b)[..|a + b| - 1] == a + front;
    }
  }

  lemma TitlesWithout(rules: TitleRules, names: seq<string>, j: nat)
    requires j < |names|
    ensures multiset(Titles(rules, names))
      == multiset(Titles(rules, Without(names, j))) + multiset(TitleOf(rules, names[j]))
  {
    var before, here, after := names[..j], [names[j]], names[j + 1..];
    assert names == before + here + after;
    TitlesConcat(rules, before + here, after);
    TitlesConcat(rules, before, here);
    TitlesConcat(rules, before, after);
    assert Titles(rules, here) == Titles(rules, []) + TitleOf(rules, names[j]);
  }

  lemma {:induction false} TitlesOfPermutation(rules: TitleRules, a: seq<string>, b: seq<string>)
    requires multiset(a) == multiset(b)
    ensures multiset(Titles(rules, a)) == multiset(Titles(rules, b))
    decreases |a|
  {
    if a == [] {
      assert |multiset(b)| == 0;
      assert b == [];
    } else {
      var last := |a| - 1;
      assert a[last] in multiset(b);
      var j :| 0 <= j < |b| && b[j] == a[last];
      RemoveSame(a, last, b, j);
      assert Without(a, last) == a[..last];
      TitlesOfPermutation(rules, a[..last], Without(b, j));
      TitlesWithout(rules, b, j);
    }
  }

  /** The verdict is about the set of titles with their multiplicities, not about their order. */
  lemma OrderDoesNotMatter(rules: TitleRules, cap: nat, a: seq<string>, b: seq<string>)
    requires multiset(a) == multiset(b)
    ensures Homogeneous(rules, cap, a) <==> Homogeneous(rules, cap, b)
  {
    TitlesOfPermutation(rules, a, b);
    var s, t := Titles(rules, a), Titles(rules, b);
    assert |s| == |multiset(s)| == |multiset(t)| == |t|;
    forall p
      ensures Hits(rules, cap, p, s) == Hits(rules, cap, p, t)
    {
      HitsOfPermutation(rules, cap, p, s, t);
    }
  }

  // ---------- four words are enough ----------

  lemma {:induction false} HitsMonotone(rules: TitleRules, cap: nat, p: string, cap': nat, p': string,
                                        titles: seq<string>)
    requires forall ws: seq<Word> :: IsCandidate(rules, cap, ws, p) ==> IsCandidate(rules, cap', ws, p')
    ensures Hits(rules, cap, p, titles) <= Hits(rules, cap', p', titles)
  {
    if titles != [] {
      HitsMonotone(rules, cap, p, cap', p', titles[..|titles| - 1]);
    }
  }

  lemma {:induction false} SomeTitleHits(rules: TitleRules, cap: nat, p: string, titles: seq<string>)
    returns (title: string)
    requires Hits(rules, cap, p, titles) > 0
    ensures Hit(rules, cap, p, title) == 1
  {
    title := titles[|titles| - 1];
    if Hit(rules, cap, p, title) == 0 {
      title := SomeTitleHits(rules, cap, p, titles[..|titles| - 1]);
    }
  }

  /** A title that contains a long phrase contains every run of words of that phrase. */
  lemma RunOfRun(rules: TitleRules, cap: nat, ws: seq<Word>, long: seq<Word>, j: nat, n: nat) returns (at: nat)
    requires IsCandidate(rules, cap, ws, Join(long)) && long != [] && j + n <= |long|
    ensures WindowOf(ws, n, at, Join(long[j..j + n]))
  {
    var m: nat, i: nat :| MIN_PHRASE_WORDS <= m <= cap && WindowOf(ws, m, i, Join(long));
    SplitUndoesJoin(long);
    SplitUndoesJoin(ws[i..i + m]);
    WindowOfWindow(ws, i, m, long, j, n);
    at := i + j;
  }

  lemma SliceOfSlice<T>(s: seq<T>, i: nat, m: nat, j: nat, n: nat)
    requires i + m <= |s| && j + n <= m
    ensures s[i..i + m][j..j + n] == s[i + j..i + j + n]
  {
    var inner, outer := s[i..i + m][j..j + n], s[i + j..i + j + n];
    assert |inner| == |outer|;
    forall x {:trigger inner[x]} | 0 <= x < n
      ensures inner[x] == outer[x]
    {
      assert inner[x] == s[i..i + m][j + x];
    }
  }

  lemma WindowOfWindow(ws: seq<Word>, i: nat, m: nat, long: seq<Word>, j: nat, n: nat)
    requires i + m <= |ws| && ws[i..i + m] == long && j + n <= m
    ensures ws[i + j..i + j + n] == long[j..j + n]
  {
    SliceOfSlice(ws, i, m, j, n);
  }

  /** A word of the phrase that is no stop word. */
  lemma TellingWord(rules: TitleRules, long: seq<Word>) returns (telling: nat)
    requires long != [] && IsSignificant(rules, Join(long))
    ensures telling < |long| && |long| >= MIN_PHRASE_WORDS && !rules.stop(long[telling])
  {
    SplitUndoesJoin(long);
    telling :| 0 <= telling < |long| && !rules.stop(long[telling]);
  }

  /** A significant phrase has a significant run of at most three words. */
  lemma TellingRun(rules: TitleRules, long: seq<Word>) returns (from: nat, size: nat)
    requires long != [] && IsSignificant(rules, Join(long))
    ensures MIN_PHRASE_WORDS <= size <= 3 && from + size <= |long|
    ensures IsSignificant(rules, Join(long[from..from + size]))
  {
    var telling := TellingWord(rules, long);
    if |long| <= 3 {
      from, size := 0, |long|;
      assert long[0..|long|] == long;
    } else {
      from, size := if telling + 3 <= |long| then telling else |long| - 3, 3;
      ThreeAround(rules, long, telling, from);
    }
  }

  lemma ThreeAround(rules: TitleRules, long: seq<Word>, telling: nat, from: nat)
    requires from <= telling < from + 3 <= |long| && !rules.stop(long[telling])
    ensures IsSignificant(rules, Join(long[from..from + 3]))
  {
    var window := long[from..from + 3];
    assert window[telling - from] == long[telling];
    ThreeWordsAreEnough(rules, window);
  }

  /** Behind every significant phrase stands one of at most three words that occurs wherever it does. */
  lemma ShortPhraseBehind(rules: TitleRules, cap: nat, ws: seq<Word>, phrase: string) returns (short: string)
    requires IsCandidate(rules, cap, ws, phrase)
    ensures forall other: seq<Word> :: IsCandidate(rules, cap, other, phrase) ==> IsCandidate(rules, 3, other, short)
  {
    var n: nat, i: nat :| MIN_PHRASE_WORDS <= n <= cap && WindowOf(ws, n, i, phrase);
    var long := ws[i..i + n];
    var from, size := TellingRun(rules, long);
    short := Join(long[from..from + size]);
    forall other: seq<Word> | IsCandidate(rules, cap, other, phrase)
      ensures IsCandidate(rules, 3, other, short)
    {
      var at := RunOfRun(rules, cap, other, long, from, size);
      assert WindowOf(other, size, at, short);
    }
  }

  /** The cap on the length of a phrase loses nothing: phrases of any length give the verdict that four words give. */
  lemma CapIsLossless(rules: TitleRules, cap: nat, names: seq<string>)
    requires cap >= 3
    ensures Homogeneous(rules, cap, names) <==> Homogeneous(rules, MAX_PHRASE_WORDS, names)
  {
    ThreeIsAsGood(rules, cap, names);
    ThreeIsAsGood(rules, MAX_PHRASE_WORDS, names);
  }

  lemma ThreeIsAsGood(rules: TitleRules, cap: nat, names: seq<string>)
    requires cap >= 3
    ensures Homogeneous(rules, cap, names) <==> Homogeneous(rules, 3, names)
  {
    var titles := Titles(rules, names);
    if Homogeneous(rules, cap, names) {
      var p :| Hits(rules, cap, p, titles) >= Threshold(|titles|);
      var title := SomeTitleHits(rules, cap, p, titles);
      var short := ShortPhraseBehind(rules, cap, rules.tokens(title), p);
      HitsMonotone(rules, cap, p, 3, short, titles);
    }
    if Homogeneous(rules, 3, names) {
      var p :| Hits(rules, 3, p, titles) >= Threshold(|titles|);
      HitsMonotone(rules, 3, p, cap, p, titles);
    }
  }

  /** Two words would not be enough: when the titles consist of the same three two-letter words, not all of them stop
      words, the branding is found as a run of three words and not as a run of two. */
  lemma TwoWordsWouldLose(rules: TitleRules, names: seq<string>, ws: seq<Word>)
    requires |Titles(rules, names)| >= MIN_LISTINGS
    requires |ws| == 3 && forall i :: 0 <= i < 3 ==> |ws[i]| == 2
    requires forall title :: title in Titles(rules, names) ==> rules.tokens(title) == ws
    requires exists i :: 0 <= i < 3 && !rules.stop(ws[i])
    ensures Homogeneous(rules, 3, names) && !Homogeneous(rules, 2, names)
  {
    var titles := Titles(rules, names);
    ThreeWordsAreEnough(rules, ws);
    assert ws[0..3] == ws;
    assert WindowOf(ws, 3, 0, Join(ws));
    AllOrNone(rules, 3, Join(ws), ws, titles);
    forall p
      ensures Hits(rules, 2, p, titles) == 0
    {
      PairIsTooShort(rules, ws, p);
      AllOrNone(rules, 2, p, ws, titles);
    }
  }

  /** Two words of two letters each make a phrase of five characters. */
  lemma PairIsTooShort(rules: TitleRules, ws: seq<Word>, p: string)
    requires forall i :: 0 <= i < |ws| ==> |ws[i]| == 2
    ensures !IsCandidate(rules, 2, ws, p)
  {
    forall i: nat | WindowOf(ws, 2, i, p)
      ensures |p| == 5
    {
      var pair: seq<Word> := [ws[i], ws[i + 1]];
      assert ws[i..i + 2] == pair && pair[1..] == [ws[i + 1]];
      assert Join(pair) == ws[i] + " " + ws[i + 1];
    }
  }

  /** When every title has the same words a phrase occurs in all of them or in none. */
  lemma {:induction false} AllOrNone(rules: TitleRules, cap: nat, p: string, ws: seq<Word>, titles: seq<string>)
    requires forall title :: title in titles ==> rules.tokens(title) == ws
    ensures Hits(rules, cap, p, titles) == if IsCandidate(rules, cap, ws, p) then |titles| else 0
  {
    if titles != [] {
      AllOrNone(rules, cap, p, ws, titles[..|titles| - 1]);
    }
  }

  // ---------- the verdict in numbers ----------

  /** The titles that count: trimmed, in the order of the names, without the blank ones. */
  lemma TitlesAreTrimmed(rules: TitleRules, names: seq<string>, name: string)
    ensures Titles(rules, []) == []
    ensures rules.trim(name) == "" ==> Titles(rules, names + [name]) == Titles(rules, names)
    ensures rules.trim(name) != "" ==> Titles(rules, names + [name]) == Titles(rules, names) + [rules.trim(name)]
  {
    assert (names + [name])[..|names|] == names;
  }

  /** What makes a phrase telling: a word alone never is, two words are iff with the blank they have six characters and
      not both are stop words, and more words are iff not all are stop words. */
  lemma SignificanceMeans(rules: TitleRules, ws: seq<Word>)
    requires ws != []
    ensures |ws| == 1 ==> !IsSignificant(rules, Join(ws))
    ensures |ws| == 2 ==>
      (IsSignificant(rules, Join(ws)) <==>
        |ws[0]| + 1 + |ws[1]| >= 6 && (!rules.stop(ws[0]) || !rules.stop(ws[1])))
    ensures |ws| >= 3 ==>
      (IsSignificant(rules, Join(ws)) <==> exists i :: 0 <= i < |ws| && !rules.stop(ws[i]))
  {
    SplitUndoesJoin(ws);
    if |ws| == 2 {
      PairLength(ws);
    } else if |ws| >= 3 {
      ThreeWordsAreEnough(rules, ws);
    }
  }

  lemma PairLength(ws: seq<Word>)
    requires |ws| == 2
    ensures |Join(ws)| == |ws[0]| + 1 + |ws[1]|
  {
    assert Join(ws[1..]) == ws[1];
  }

  /** A title has a phrase iff it is a telling run of two to four of its words. */
  lemma CandidatesMean(rules: TitleRules, words: seq<Word>, phrase: string)
    ensures IsCandidate(rules, MAX_PHRASE_WORDS, words, phrase)
       <==> IsSignificant(rules, phrase) && exists n: nat, i: nat :: 2 <= n <= 4 && IsRun(words, i, n, phrase)
  {
    forall n: nat, i: nat
      ensures IsRun(words, i, n, phrase) <==> WindowOf(words, n, i, phrase)
    {
    }
    if IsCandidate(rules, MAX_PHRASE_WORDS, words, phrase) {
      var n: nat, i: nat :| MIN_PHRASE_WORDS <= n <= MAX_PHRASE_WORDS && WindowOf(words, n, i, phrase);
      assert IsRun(words, i, n, phrase);
    }
    if IsSignificant(rules, phrase) {
      forall n: nat, i: nat | 2 <= n <= 4 && IsRun(words, i, n, phrase)
        ensures IsCandidate(rules, MAX_PHRASE_WORDS, words, phrase)
      {
        assert WindowOf(words, n, i, phrase);
      }
    }
  }

  ghost predicate IsRun(words: seq<Word>, i: nat, n: nat, phrase: string) {
    i + n <= |words| && Join(words[i..i + n]) == phrase
  }

  /** How often a phrase counts: once for each title that has it. */
  lemma HitsAreTitles(rules: TitleRules, cap: nat, phrase: string, titles: seq<string>, title: string)
    ensures Hits(rules, cap, phrase, []) == 0
    ensures Hits(rules, cap, phrase, titles + [title])
      == Hits(rules, cap, phrase, titles) + if IsCandidate(rules, cap, rules.tokens(title), phrase) then 1 else 0
  {
    assert (titles + [title])[..|titles|] == titles;
  }

  /** The phrase counts for six tenths of the titles. */
  ghost predicate SharedByMost(rules: TitleRules, titles: seq<string>, phrase: string) {
    10 * Hits(rules, MAX_PHRASE_WORDS, phrase, titles) >= 6 * |titles|
  }

  /** The verdict: three titles at least, and a phrase that most of them share. */
  lemma VerdictInNumbers(rules: TitleRules, names: seq<string>)
    ensures Homogeneous(rules, MAX_PHRASE_WORDS, names)
       <==> |Titles(rules, names)| >= 3 && exists p :: SharedByMost(rules, Titles(rules, names), p)
  {
    var titles := Titles(rules, names);
    if Homogeneous(rules, MAX_PHRASE_WORDS, names) {
      var p :| Hits(rules, MAX_PHRASE_WORDS, p, titles) >= Threshold(|titles|);
      ThresholdReached(Hits(rules, MAX_PHRASE_WORDS, p, titles), |titles|);
      assert SharedByMost(rules, titles, p);
    }
    if p :| SharedByMost(rules, titles, p) {
      ThresholdReached(Hits(rules, MAX_PHRASE_WORDS, p, titles), |titles|);
    }
  }

  lemma ThresholdReached(hits: nat, n: nat)
    ensures hits >= Threshold(n) <==> 10 * hits >= 6 * n
  {
  }
}
