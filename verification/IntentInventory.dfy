/**
 * Everything a hub can be asked (src/intents.rs): one listing per language, described where it must be, folded into
 * one intent per skill and name. What the hub lists for a language is a parameter.
 */
module IntentInventory {
  import opened Wrappers
  import opened Text
  import opened Languages
  import DW = DescribeWindows

  const DESCRIBE_BATCH: nat := 32

  /** One row of a listing, with the samples of its definition when the hub attached one. */
  datatype Row = Row(skill: string, intent: string, matcher: string, enabled: bool, definition: Option<seq<string>>)

  datatype Listing = Listing(tag: string, rows: seq<Row>)

  function EngineForMethod(matcher: string): string
  {
    if matcher == "template" then "padatious"
    else if matcher == "keyword" then "adapt"
    else if matcher == "" then "unknown"
    else matcher
  }

  // ---------------------------------------------------------------------------------------------
  // One listing per language
  // ---------------------------------------------------------------------------------------------

  function Tags(listed: seq<Listing>): (r: seq<string>)
    ensures |r| == |listed| && forall i :: 0 <= i < |r| ==> r[i] == listed[i].tag
  {
    seq(|listed|, i requires 0 <= i < |listed| => listed[i].tag)
  }

  /** The first place whose tag names this language, or the length. */
  function PlaceOf(listed: seq<Listing>, tag: string, lower: string -> string): (n: nat)
    ensures n <= |listed|
    ensures n < |listed| ==> SameLanguage(listed[n].tag, tag, lower)
    ensures forall i :: 0 <= i < n ==> !SameLanguage(listed[i].tag, tag, lower)
  {
    if listed == [] || SameLanguage(listed[0].tag, tag, lower) then 0 else 1 + PlaceOf(listed[1..], tag, lower)
  }

  /** The listings kept, one for each language, and the tag each answer was filed under. */
  function Listed(answers: seq<Listing>, lower: string -> string): (r: (seq<Listing>, seq<string>))
    ensures |r.1| == |answers|
    decreases |answers|
  {
    if answers == [] then ([], [])
    else
      var (listed, listedIn) := Listed(answers[..|answers| - 1], lower);
      var last := answers[|answers| - 1];
      var n := PlaceOf(listed, last.tag, lower);
      if n < |listed| then (listed[n := Listing(listed[n].tag, last.rows)], listedIn + [listed[n].tag])
      else (listed + [last], listedIn + [last.tag])
  }

  method FindListing(listed: seq<Listing>, tag: string, lower: string -> string) returns (n: nat)
    ensures n == PlaceOf(listed, tag, lower)
  {
    hide SameLanguage, PlaceOf;
    n := 0;
    while n < |listed| && !SameLanguage(listed[n].tag, tag, lower)
      invariant n <= |listed|
      invariant forall j :: 0 <= j < n ==> !SameLanguage(listed[j].tag, tag, lower)
    {
      n := n + 1;
    }
  }

  method ListLanguages(answers: seq<Listing>, lower: string -> string)
    returns (listed: seq<Listing>, listedIn: seq<string>)
    ensures (listed, listedIn) == Listed(answers, lower)
  {
    listed, listedIn := [], [];
    NothingListed(lower);
    assert answers[..0] == [];
    hide Listed, PlaceOf;
    for i := 0 to |answers|
      invariant (listed, listedIn) == Listed(answers[..i], lower)
    {
      ListedOneMore(answers, i, lower);
      var tag := answers[i].tag;
      var n := FindListing(listed, tag, lower);
      if n < |listed| {
        tag := listed[n].tag;
        listed := listed[n := Listing(tag, answers[i].rows)];
      } else {
        listed := listed + [answers[i]];
      }
      listedIn := listedIn + [tag];
    }
    assert answers[..|answers|] == answers;
  }

  lemma ListedOneMore(answers: seq<Listing>, i: nat, lower: string -> string)
    requires i < |answers|
    ensures Listed(answers[..i + 1], lower) ==
            var (listed, listedIn) := Listed(answers[..i], lower);
            var n := PlaceOf(listed, answers[i].tag, lower);
            if n < |listed|
            then (listed[n := Listing(listed[n].tag, answers[i].rows)], listedIn + [listed[n].tag])
            else (listed + [answers[i]], listedIn + [answers[i].tag])
  {
    hide SameLanguage;
    assert answers[..i + 1][..i] == answers[..i];
  }

  /** Answer `i` is the last one in the language of `tag`. */
  ghost predicate IsLastIn(answers: seq<Listing>, i: nat, tag: string, lower: string -> string)
  {
    && i < |answers| && SameLanguage(tag, answers[i].tag, lower)
    && forall j :: i < j < |answers| ==> !SameLanguage(tag, answers[j].tag, lower)
  }

  /** No two listings are in one language, and each answer is filed under a listing in its language. */
  lemma {:induction false} ListingsTellLanguagesApart(answers: seq<Listing>, lower: string -> string)
    ensures var (listed, listedIn) := Listed(answers, lower);
      && Different(Tags(listed), lower)
      && (forall i :: 0 <= i < |answers| ==>
            listedIn[i] in Tags(listed) && SameLanguage(listedIn[i], answers[i].tag, lower))
    decreases |answers|
  {
    hide SameLanguage, Listed, Different;
    if answers == [] {
      NothingListed(lower);
      assert Different([], lower) by { NoneDiffer(lower); }
    } else {
      var m := |answers| - 1;
      var most, last := answers[..m], answers[m];
      assert answers == most + [last];
      ListingsTellLanguagesApart(most, lower);
      TagsOneMore(most, last, lower);
      SameAsItself(last.tag, lower);
      var before := Listed(most, lower).0;
      if PlaceOf(before, last.tag, lower) == |before| {
        DifferentOneMore(Tags(before), last.tag, lower);
      }
    }
  }

  lemma NoneDiffer(lower: string -> string)
    ensures Different([], lower)
  {}

  lemma DifferentOneMore(tags: seq<string>, tag: string, lower: string -> string)
    requires Different(tags, lower) && forall i :: 0 <= i < |tags| ==> !SameLanguage(tags[i], tag, lower)
    ensures Different(tags + [tag], lower)
  {
    hide SameLanguage;
  }

  /** What one more answer does to the tags, and where it is filed. */
  lemma TagsOneMore(answers: seq<Listing>, last: Listing, lower: string -> string)
    ensures var (before, beforeIn) := Listed(answers, lower);
      var (listed, listedIn) := Listed(answers + [last], lower);
      var n := PlaceOf(before, last.tag, lower);
      && n < |listed| && listedIn == beforeIn + [Tags(listed)[n]]
      && Tags(listed) == (if n < |before| then Tags(before) else Tags(before) + [last.tag])
      && listed[n].rows == last.rows
      && forall k :: 0 <= k < |before| && k != n ==> listed[k] == before[k]
  {
    hide SameLanguage;
    assert (answers + [last])[..|answers|] == answers;
  }

  /** A listing's rows are the last answer's in its language. */
  lemma {:induction false} ListingsHoldTheLastAnswers(answers: seq<Listing>, lower: string -> string, k: nat)
    returns (i: nat)
    requires k < |Listed(answers, lower).0|
    ensures var listing := Listed(answers, lower).0[k];
      IsLastIn(answers, i, listing.tag, lower) && listing.rows == answers[i].rows
    decreases |answers|
  {
    hide SameLanguage, Listed;
    i := 0;
    if answers == [] {
      NothingListed(lower);
    } else {
      var m := |answers| - 1;
      var most, last := answers[..m], answers[m];
      assert answers == most + [last];
      TagsOneMore(most, last, lower);
      var before, listed := Listed(most, lower).0, Listed(answers, lower).0;
      var n := PlaceOf(before, last.tag, lower);
      if k == n {
        i := m;
        SameAsItself(last.tag, lower);
        assert Tags(listed)[n] == listed[n].tag;
      } else {
        i := ListingsHoldTheLastAnswers(most, lower, k);
        ListingsTellLanguagesApart(most, lower);
        OtherLanguage(Tags(before), n, k, last.tag, lower);
      }
    }
  }

  lemma NothingListed(lower: string -> string)
    ensures Listed([], lower) == ([], [])
  {}

  lemma OtherLanguage(tags: seq<string>, n: nat, k: nat, tag: string, lower: string -> string)
    requires Different(tags, lower) && n <= |tags| && k < |tags| && k != n
    requires n < |tags| ==> SameLanguage(tags[n], tag, lower)
    requires n == |tags| ==> forall i :: 0 <= i < n ==> !SameLanguage(tags[i], tag, lower)
    ensures !SameLanguage(tags[k], tag, lower)
  {}

  // ---------------------------------------------------------------------------------------------
  // The fold
  // ---------------------------------------------------------------------------------------------

  datatype IntentKey = IntentKey(skill: string, intent: string)

  datatype HubIntent = HubIntent(engine: string, enabled: bool, phrases: map<string, seq<string>>)

  /** A row, under the tag it is listed by. */
  datatype Entry = Entry(lang: string, row: Row)

  function EntriesOf(listing: Listing): (r: seq<Entry>)
    ensures |r| == |listing.rows| && forall i :: 0 <= i < |r| ==> r[i] == Entry(listing.tag, listing.rows[i])
  {
    seq(|listing.rows|, i requires 0 <= i < |listing.rows| => Entry(listing.tag, listing.rows[i]))
  }

  /** All rows of all listings, in order. */
  function Entries(listed: seq<Listing>): seq<Entry>
    decreases |listed|
  {
    if listed == [] then [] else Entries(listed[..|listed| - 1]) + EntriesOf(listed[|listed| - 1])
  }

  lemma EntriesOneMore(listed: seq<Listing>, i: nat)
    requires i < |listed|
    ensures Entries(listed[..i + 1]) == Entries(listed[..i]) + EntriesOf(listed[i])
  {
    assert listed[..i + 1][..i] == listed[..i];
  }

  lemma OneMoreEntry(before: seq<Entry>, entries: seq<Entry>, j: nat)
    requires j < |entries|
    ensures before + entries[..j + 1] == before + entries[..j] + [entries[j]]
  {}

  function KeyOf(e: Entry): IntentKey
  {
    IntentKey(e.row.skill, e.row.intent)
  }

  /** The samples that say something, trimmed. */
  function SamplesOf(samples: seq<string>): (r: seq<string>)
    ensures forall s <- r :: s != []
  {
    if samples == [] then []
    else (if Trim(samples[0]) == [] then [] else [Trim(samples[0])]) + SamplesOf(samples[1..])
  }

  /** Samples are read one after another: each is trimmed, and left out when nothing is left of it. */
  lemma {:induction false} SamplesInParts(some: seq<string>, sample: string, others: seq<string>)
    ensures SamplesOf(some + [sample] + others) ==
            SamplesOf(some) + (if exists c <- sample :: !IsWhitespace(c) then [Trim(sample)] else [])
            + SamplesOf(others)
    decreases |some|
  {
    hide Trim, IsWhitespace;
    var all := some + [sample] + others;
    if some == [] {
      BlankOnlyIfTrimmedAway(sample);
      assert all[1..] == others;
    } else {
      SamplesInParts(some[1..], sample, others);
      assert all[1..] == some[1..] + [sample] + others;
      var kept := if exists c <- sample :: !IsWhitespace(c) then [Trim(sample)] else [];
      var first := if Trim(some[0]) == [] then [] else [Trim(some[0])];
      assert SamplesOf(all) == first + (SamplesOf(some[1..]) + kept + SamplesOf(others));
    }
  }

  lemma BlankOnlyIfTrimmedAway(s: string)
    ensures Trim(s) == [] <==> forall c <- s :: IsWhitespace(c)
  {
    hide IsWhitespace;
    var before, after := TrimTakesOffWhiteSpace(s);
    if Trim(s) == [] {
      assert s == before + after;
    } else {
      assert Trim(s)[0] in s;
    }
  }

  /** Definition `i` is the first with samples. */
  ghost predicate IsFirstWithSamples(definitions: seq<DW.Definition>, i: int)
  {
    0 <= i < |definitions| && definitions[i].samples != [] && forall j :: 0 <= j < i ==> definitions[j].samples == []
  }

  lemma {:induction false} FirstSamplesAreTheFirst(definitions: seq<DW.Definition>, i: int)
    requires IsFirstWithSamples(definitions, i)
    ensures FirstSamples(definitions) == definitions[i].samples
  {
    if i > 0 {
      FirstSamplesAreTheFirst(definitions[1..], i - 1);
    }
  }

  /** The samples of the first definition that has any. */
  function FirstSamples(definitions: seq<DW.Definition>): (r: seq<string>)
    ensures r == [] <==> forall d <- definitions :: d.samples == []
    ensures r != [] ==> exists d <- definitions :: d.samples == r
  {
    if definitions == [] then []
    else if definitions[0].samples != [] then definitions[0].samples
    else FirstSamples(definitions[1..])
  }

  /** The sentences one row brings: its own definition's, or else what was described. */
  function Sentences(e: Entry, described: DW.Found): seq<string>
  {
    var wanted := DW.Wanted(e.row.skill, e.row.intent, e.lang);
    if e.row.definition.Some? then SamplesOf(e.row.definition.value)
    else if wanted in described then FirstSamples(described[wanted])
    else []
  }

  predicate IsFor(e: Entry, key: IntentKey, lang: string)
  {
    KeyOf(e) == key && e.lang == lang
  }

  /** The engine of the first row of an intent. */
  function FirstEngine(entries: seq<Entry>, key: IntentKey): string
  {
    if entries == [] then "" else if KeyOf(entries[0]) == key then EngineForMethod(entries[0].row.matcher)
    else FirstEngine(entries[1..], key)
  }

  predicate AnyEnabled(entries: seq<Entry>, key: IntentKey)
  {
    exists e <- entries :: KeyOf(e) == key && e.row.enabled
  }

  /** The last sentences any row brings for an intent in a language. */
  function LastSentences(entries: seq<Entry>, key: IntentKey, lang: string, described: DW.Found): seq<string>
    decreases |entries|
  {
    if entries == [] then []
    else
      var last := entries[|entries| - 1];
      if IsFor(last, key, lang) && Sentences(last, described) != [] then Sentences(last, described)
      else LastSentences(entries[..|entries| - 1], key, lang, described)
  }

  function Keys(entries: seq<Entry>): set<IntentKey>
  {
    set e <- entries :: KeyOf(e)
  }

  function Langs(entries: seq<Entry>, key: IntentKey): set<string>
  {
    set e <- entries | KeyOf(e) == key :: e.lang
  }

  function IntentOf(entries: seq<Entry>, key: IntentKey, described: DW.Found): HubIntent
  {
    HubIntent(FirstEngine(entries, key), AnyEnabled(entries, key),
              map lang | lang in Langs(entries, key) :: LastSentences(entries, key, lang, described))
  }

  /** One intent for each skill and name that has a row. */
  function Inventoried(entries: seq<Entry>, described: DW.Found): map<IntentKey, HubIntent>
  {
    map key | key in Keys(entries) :: IntentOf(entries, key, described)
  }

  /** The three maps the fold keeps. */
  datatype Fold = Fold(engines: map<IntentKey, string>, enabled: map<IntentKey, bool>,
                       phrases: map<IntentKey, map<string, seq<string>>>)

  ghost predicate Folds(f: Fold, entries: seq<Entry>, described: DW.Found)
  {
    && f.engines.Keys == Keys(entries) && f.enabled.Keys == Keys(entries) && f.phrases.Keys == Keys(entries)
    && forall key <- Keys(entries) ::
         HubIntent(f.engines[key], f.enabled[key], f.phrases[key]) == IntentOf(entries, key, described)
  }

  /** One row folded in. */
  function Folded(f: Fold, e: Entry, described: DW.Found): Fold
  {
    var key, sentences := KeyOf(e), Sentences(e, described);
    var perLanguage := if key in f.phrases then f.phrases[key] else map[];
    Fold(if key in f.engines then f.engines else f.engines[key := EngineForMethod(e.row.matcher)],
         f.enabled[key := (key in f.enabled && f.enabled[key]) || e.row.enabled],
         f.phrases[key := if sentences != [] || e.lang !in perLanguage then perLanguage[e.lang := sentences]
                          else perLanguage])
  }

  lemma FoldOneMore(f: Fold, entries: seq<Entry>, e: Entry, described: DW.Found)
    requires Folds(f, entries, described)
    ensures Folds(Folded(f, e, described), entries + [e], described)
  {
    hide Sentences, IntentOf, Keys, EngineForMethod;
    var g, all := Folded(f, e, described), entries + [e];
    KeysOneMore(entries, e);
    forall key | key in Keys(all)
      ensures HubIntent(g.engines[key], g.enabled[key], g.phrases[key]) == IntentOf(all, key, described)
    {
      if key in Keys(entries) {
        IntentWithOneMore(entries, e, key, described);
      } else {
        NewIntent(entries, e, described);
      }
    }
  }

  lemma KeysOneMore(entries: seq<Entry>, e: Entry)
    ensures Keys(entries + [e]) == Keys(entries) + {KeyOf(e)}
  {}

  lemma EngineOneMore(entries: seq<Entry>, e: Entry, key: IntentKey)
    ensures FirstEngine(entries + [e], key) ==
            if key in Keys(entries) then FirstEngine(entries, key)
            else if KeyOf(e) == key then EngineForMethod(e.row.matcher) else ""
  {
    hide EngineForMethod;
    if entries == [] {
      assert [e][1..] == [];
    } else {
      EngineOneMore(entries[1..], e, key);
      assert (entries + [e])[1..] == entries[1..] + [e];
      assert entries == [entries[0]] + entries[1..];
    }
  }

  lemma SentencesOneMore(entries: seq<Entry>, e: Entry, key: IntentKey, lang: string, described: DW.Found)
    ensures LastSentences(entries + [e], key, lang, described) ==
            if IsFor(e, key, lang) && Sentences(e, described) != [] then Sentences(e, described)
            else LastSentences(entries, key, lang, described)
  {
    hide Sentences;
    assert (entries + [e])[..|entries|] == entries;
  }

  lemma LangsOneMore(entries: seq<Entry>, e: Entry, key: IntentKey)
    ensures Langs(entries + [e], key) == Langs(entries, key) + if KeyOf(e) == key then {e.lang} else {}
  {}

  lemma NothingBefore(entries: seq<Entry>, key: IntentKey, lang: string, described: DW.Found)
    requires lang !in Langs(entries, key)
    ensures LastSentences(entries, key, lang, described) == []
  {
    hide Sentences;
    if entries != [] {
      assert entries[|entries| - 1] in entries;
      NothingBefore(entries[..|entries| - 1], key, lang, described);
    }
  }

  lemma IntentWithOneMore(entries: seq<Entry>, e: Entry, key: IntentKey, described: DW.Found)
    requires key in Keys(entries)
    ensures var before, after := IntentOf(entries, key, described), IntentOf(entries + [e], key, described);
      && after.engine == before.engine
      && after.enabled == (before.enabled || (KeyOf(e) == key && e.row.enabled))
      && after.phrases ==
         if KeyOf(e) == key && (Sentences(e, described) != [] || e.lang !in before.phrases)
         then before.phrases[e.lang := Sentences(e, described)] else before.phrases
  {
    hide Sentences, LastSentences, Langs;
    EngineOneMore(entries, e, key);
    LangsOneMore(entries, e, key);
    if e.lang !in Langs(entries, key) {
      NothingBefore(entries, key, e.lang, described);
    }
    forall lang ensures LastSentences(entries + [e], key, lang, described) ==
                        if IsFor(e, key, lang) && Sentences(e, described) != [] then Sentences(e, described)
                        else LastSentences(entries, key, lang, described)
    {
      SentencesOneMore(entries, e, key, lang, described);
    }
  }

  lemma NewIntent(entries: seq<Entry>, e: Entry, described: DW.Found)
    requires KeyOf(e) !in Keys(entries)
    ensures IntentOf(entries + [e], KeyOf(e), described) ==
            HubIntent(EngineForMethod(e.row.matcher), e.row.enabled, map[e.lang := Sentences(e, described)])
  {
    hide Sentences, LastSentences, EngineForMethod;
    var key := KeyOf(e);
    EngineOneMore(entries, e, key);
    LangsOneMore(entries, e, key);
    assert Langs(entries, key) == {};
    NothingBefore(entries, key, e.lang, described);
    SentencesOneMore(entries, e, key, e.lang, described);
    assert forall x <- entries :: KeyOf(x) in Keys(entries);
  }

  /** Folds the rows of every listing into one intent for each skill and name. */
  method FoldInventory(listed: seq<Listing>, described: DW.Found) returns (intents: map<IntentKey, HubIntent>)
    ensures intents == Inventoried(Entries(listed), described)
  {
    hide Folded, Folds, Inventoried, IntentOf, Sentences, Entries;
    var f := Fold(map[], map[], map[]);
    NothingFolded(described);
    assert listed[..0] == [];
    for i := 0 to |listed|
      invariant Folds(f, Entries(listed[..i]), described)
    {
      var listing := listed[i];
      ghost var before, entries := Entries(listed[..i]), EntriesOf(listing);
      EntriesOneMore(listed, i);
      assert before + entries[..0] == before;
      for j := 0 to |listing.rows|
        invariant Folds(f, before + entries[..j], described)
      {
        var e := Entry(listing.tag, listing.rows[j]);
        FoldOneMore(f, before + entries[..j], e, described);
        OneMoreEntry(before, entries, j);
        f := FoldRow(f, e, described);
      }
      assert entries[..|listing.rows|] == entries;
    }
    assert listed[..|listed|] == listed;
    intents := Collected(f, Entries(listed), described);
  }

  lemma NothingFolded(described: DW.Found)
    ensures Folds(Fold(map[], map[], map[]), Entries([]), described)
  {}

  /** One row's turn in the fold, step by step. */
  method FoldRow(f: Fold, e: Entry, described: DW.Found) returns (g: Fold)
    ensures g == Folded(f, e, described)
  {
    var key, engines, enabled, phrases := KeyOf(e), f.engines, f.enabled, f.phrases;
    if key !in engines {
      engines := engines[key := EngineForMethod(e.row.matcher)];
    }
    if key !in enabled {
      enabled := enabled[key := false];
    }
    enabled := enabled[key := enabled[key] || e.row.enabled];
    var sentences := Sentences(e, described);
    var perLanguage := if key in phrases then phrases[key] else map[];
    if sentences != [] || e.lang !in perLanguage {
      perLanguage := perLanguage[e.lang := sentences];
    }
    phrases := phrases[key := perLanguage];
    assert enabled == f.enabled[key := enabled[key]];
    g := Fold(engines, enabled, phrases);
  }

  /** Takes the three maps together, intent by intent. */
  method Collected(f: Fold, ghost entries: seq<Entry>, ghost described: DW.Found)
    returns (intents: map<IntentKey, HubIntent>)
    requires Folds(f, entries, described)
    ensures intents == Inventoried(entries, described)
  {
    hide IntentOf, Keys, Inventoried;
    FoldsMeans(f, entries, described);
    hide Folds;
    var keys := f.phrases.Keys;
    intents := map[];
    while keys != {}
      invariant keys <= f.phrases.Keys && intents.Keys == f.phrases.Keys - keys
      invariant forall key <- intents :: intents[key] == IntentOf(entries, key, described)
      decreases |keys|
    {
      var key :| key in keys;
      keys := keys - {key};
      intents := intents[key := HubIntent(f.engines[key], f.enabled[key], f.phrases[key])];
    }
    AllCollected(intents, entries, described);
  }

  lemma FoldsMeans(f: Fold, entries: seq<Entry>, described: DW.Found)
    requires Folds(f, entries, described)
    ensures f.engines.Keys == Keys(entries) && f.enabled.Keys == Keys(entries) && f.phrases.Keys == Keys(entries)
    ensures forall key <- f.phrases ::
              HubIntent(f.engines[key], f.enabled[key], f.phrases[key]) == IntentOf(entries, key, described)
  {
    hide IntentOf, Keys;
  }

  lemma AllCollected(intents: map<IntentKey, HubIntent>, entries: seq<Entry>, described: DW.Found)
    requires intents.Keys == Keys(entries) && forall key <- intents :: intents[key] == IntentOf(entries, key, described)
    ensures intents == Inventoried(entries, described)
  {
    hide IntentOf, Keys;
  }

  // ---------------------------------------------------------------------------------------------
  // What the inventory says
  // ---------------------------------------------------------------------------------------------

  /** Row `n` is the first of its intent. */
  ghost predicate IsFirstOf(entries: seq<Entry>, n: nat, key: IntentKey)
  {
    n < |entries| && KeyOf(entries[n]) == key && forall i :: 0 <= i < n ==> KeyOf(entries[i]) != key
  }

  lemma {:induction false} FirstRowNamesTheEngine(entries: seq<Entry>, n: nat, key: IntentKey)
    requires IsFirstOf(entries, n, key)
    ensures FirstEngine(entries, key) == EngineForMethod(entries[n].row.matcher)
  {
    hide EngineForMethod;
    if n > 0 {
      FirstRowNamesTheEngine(entries[1..], n - 1, key);
    }
  }

  /** Row `n` is the last that brings sentences for an intent in a language. */
  ghost predicate IsLastToSay(entries: seq<Entry>, n: nat, key: IntentKey, lang: string, described: DW.Found)
  {
    && n < |entries| && IsFor(entries[n], key, lang) && Sentences(entries[n], described) != []
    && forall i :: n < i < |entries| && IsFor(entries[i], key, lang) ==> Sentences(entries[i], described) == []
  }

  lemma {:induction false} LastRowWithSentencesCounts(entries: seq<Entry>, n: nat, key: IntentKey, lang: string,
                                                      described: DW.Found)
    requires IsLastToSay(entries, n, key, lang, described)
    ensures LastSentences(entries, key, lang, described) == Sentences(entries[n], described)
    decreases |entries|
  {
    hide Sentences;
    if n < |entries| - 1 {
      LastRowWithSentencesCounts(entries[..|entries| - 1], n, key, lang, described);
    }
  }

  /** Templates are matched by padatious and keywords by adapt; another name stands for itself, and none is unknown. */
  predicate IsEngineOf(engine: string, matcher: string)
  {
    && (matcher == "template" ==> engine == "padatious")
    && (matcher == "keyword" ==> engine == "adapt")
    && (matcher == "" ==> engine == "unknown")
    && (matcher !in {"template", "keyword", ""} ==> engine == matcher)
  }

  lemma EnginesAreNamedSo(matcher: string)
    ensures IsEngineOf(EngineForMethod(matcher), matcher)
  {
    assert "template"[0] != "keyword"[0];
  }

  /** What an intent is, read off the rows. */
  ghost predicate SaysWhatTheRowsSay(intent: HubIntent, entries: seq<Entry>, key: IntentKey, described: DW.Found)
  {
    && (forall n: nat :: IsFirstOf(entries, n, key) ==> IsEngineOf(intent.engine, entries[n].row.matcher))
    && (intent.enabled <==> exists e <- entries :: KeyOf(e) == key && e.row.enabled)
    && (forall lang :: lang in intent.phrases <==> exists e <- entries :: IsFor(e, key, lang))
    && forall lang <- intent.phrases :: PhrasesAre(intent.phrases[lang], entries, key, lang, described)
  }

  /** The sentences of the last row that brings any, or none when no row does. */
  ghost predicate PhrasesAre(phrases: seq<string>, entries: seq<Entry>, key: IntentKey, lang: string,
                             described: DW.Found)
  {
    && (forall n: nat :: IsLastToSay(entries, n, key, lang, described) ==> phrases == Sentences(entries[n], described))
    && ((forall e <- entries :: IsFor(e, key, lang) ==> Sentences(e, described) == []) <==> phrases == [])
  }

  /**
   * The inventory, read off the rows: there is an intent for exactly the skills and names that have a row, with the
   * engine of its first row, enabled when any of its rows is, with a list for exactly the languages it has a row in,
   * and in each the sentences of the last row that brings any, wherever rows without sentences stand.
   */
  lemma InventorySaysWhatTheRowsSay(entries: seq<Entry>, described: DW.Found, key: IntentKey)
    ensures var intents := Inventoried(entries, described);
      && (key in intents <==> exists e <- entries :: KeyOf(e) == key)
      && (key in intents ==> SaysWhatTheRowsSay(intents[key], entries, key, described))
  {
    hide PhrasesAre, EngineForMethod, FirstEngine, LastSentences, IsEngineOf;
    var intents := Inventoried(entries, described);
    if key in intents {
      var intent := intents[key];
      forall n: nat | IsFirstOf(entries, n, key) ensures IsEngineOf(intent.engine, entries[n].row.matcher) {
        FirstRowNamesTheEngine(entries, n, key);
        EnginesAreNamedSo(entries[n].row.matcher);
      }
      forall lang | lang in intent.phrases ensures PhrasesAre(intent.phrases[lang], entries, key, lang, described) {
        PhrasesAreTheLastSaid(entries, key, lang, described);
      }
    }
  }

  lemma PhrasesAreTheLastSaid(entries: seq<Entry>, key: IntentKey, lang: string, described: DW.Found)
    ensures PhrasesAre(LastSentences(entries, key, lang, described), entries, key, lang, described)
  {
    hide Sentences, LastSentences;
    forall n: nat | IsLastToSay(entries, n, key, lang, described)
      ensures LastSentences(entries, key, lang, described) == Sentences(entries[n], described)
    {
      LastRowWithSentencesCounts(entries, n, key, lang, described);
    }
    EmptyMeansNoSentences(entries, key, lang, described);
  }

  lemma {:induction false} EmptyMeansNoSentences(entries: seq<Entry>, key: IntentKey, lang: string, described: DW.Found)
    ensures (forall e <- entries :: IsFor(e, key, lang) ==> Sentences(e, described) == []) <==>
            LastSentences(entries, key, lang, described) == []
    decreases |entries|
  {
    hide Sentences;
    if entries != [] {
      var n := |entries| - 1;
      EmptyMeansNoSentences(entries[..n], key, lang, described);
      assert entries == entries[..n] + [entries[n]];
    }
  }

  // ---------------------------------------------------------------------------------------------
  // The whole inventory
  // ---------------------------------------------------------------------------------------------

  predicate NeedsDescribing(row: Row)
  {
    row.enabled && row.definition.None? && row.matcher == "template"
  }

  /** The registrations to describe: enabled template rows that came without a definition. */
  function WantedOf(entries: seq<Entry>): seq<DW.Wanted>
    decreases |entries|
  {
    if entries == [] then []
    else
      var most, e := WantedOf(entries[..|entries| - 1]), entries[|entries| - 1];
      if NeedsDescribing(e.row) then most + [DW.Wanted(e.row.skill, e.row.intent, e.lang)] else most
  }

  /** A registration is described exactly when some row calls for it. */
  lemma {:induction false} WantedAreTheRowsInNeed(entries: seq<Entry>, w: DW.Wanted)
    ensures w in WantedOf(entries) <==>
            exists e <- entries ::
              && e.row.enabled && e.row.definition == None && e.row.matcher == "template"
              && w == DW.Wanted(e.row.skill, e.row.intent, e.lang)
    decreases |entries|
  {
    if entries != [] {
      var n := |entries| - 1;
      WantedAreTheRowsInNeed(entries[..n], w);
      assert entries == entries[..n] + [entries[n]];
    }
  }

  lemma WantedOneMore(entries: seq<Entry>, e: Entry)
    ensures WantedOf(entries + [e]) ==
            WantedOf(entries) + if NeedsDescribing(e.row) then [DW.Wanted(e.row.skill, e.row.intent, e.lang)] else []
  {
    assert (entries + [e])[..|entries|] == entries;
  }

  method ListWanted(listed: seq<Listing>) returns (wanted: seq<DW.Wanted>)
    ensures wanted == WantedOf(Entries(listed))
  {
    wanted := [];
    assert listed[..0] == [];
    hide WantedOf, Entries, NeedsDescribing;
    for i := 0 to |listed|
      invariant wanted == WantedOf(Entries(listed[..i]))
    {
      var listing := listed[i];
      ghost var before, entries := Entries(listed[..i]), EntriesOf(listing);
      EntriesOneMore(listed, i);
      assert before + entries[..0] == before;
      for j := 0 to |listing.rows|
        invariant wanted == WantedOf(before + entries[..j])
      {
        var row := listing.rows[j];
        OneMoreEntry(before, entries, j);
        WantedOneMore(before + entries[..j], entries[j]);
        if NeedsDescribing(row) {
          wanted := wanted + [DW.Wanted(row.skill, row.intent, listing.tag)];
        }
      }
      assert entries[..|listing.rows|] == entries;
    }
    assert listed[..|listed|] == listed;
  }

  datatype Inventory = Inventory(languages: seq<string>, listedIn: seq<string>, intents: map<IntentKey, HubIntent>)

  /** What the hub lists for each language asked about. */
  function AnswersFor(languages: seq<string>, lists: string -> Listing): (r: seq<Listing>)
    ensures |r| == |languages| && forall i :: 0 <= i < |r| ==> r[i] == lists(languages[i])
  {
    seq(|languages|, i requires 0 <= i < |languages| => lists(languages[i]))
  }

  /** What was found out about the rows that needed describing. */
  function DescribedFor(entries: seq<Entry>, describe: bool, windows: nat -> DW.Window, start: nat, timeout: nat,
                        lower: string -> string): Result<DW.Found, DW.DescribeError>
  {
    if describe && WantedOf(entries) != []
    then DW.Describe(WantedOf(entries), DESCRIBE_BATCH, windows, start, start + timeout, lower).result
    else Ok(map[])
  }

  function Asked(languages: seq<string>, lower: string -> string): seq<string>
  {
    if Chosen(languages, lower) == [] then [DEFAULT_LANG] else Chosen(languages, lower)
  }

  function InventoryOf(languages: seq<string>, lists: string -> Listing, describe: bool, windows: nat -> DW.Window,
                       start: nat, timeout: nat, lower: string -> string): Result<Inventory, DW.DescribeError>
  {
    var asked := Asked(languages, lower);
    var (listed, listedIn) := Listed(AnswersFor(asked, lists), lower);
    var described := DescribedFor(Entries(listed), describe, windows, start, timeout, lower);
    if described.Err? then Err(described.error)
    else Ok(Inventory(asked, listedIn, Inventoried(Entries(listed), described.value)))
  }

  method TakeInventory(languages: seq<string>, lists: string -> Listing, describe: bool, windows: nat -> DW.Window,
                       start: nat, timeout: nat, lower: string -> string)
    returns (r: Result<Inventory, DW.DescribeError>)
    ensures r == InventoryOf(languages, lists, describe, windows, start, timeout, lower)
  {
    hide Inventoried, Entries, Listed, WantedOf, Chosen, AnswersFor, DW.Describe;
    var asked := ChosenLanguages(languages, lower);
    var answers := AnswersFor(asked, lists);
    var listed, listedIn := ListLanguages(answers, lower);
    var wanted := ListWanted(listed);
    var described: DW.Found := map[];
    if describe && wanted != [] {
      var d := DW.DescribeMany(wanted, DESCRIBE_BATCH, windows, start, start + timeout, lower);
      if d.result.Err? {
        return Err(d.result.error);
      }
      described := d.result.value;
    }
    var intents := FoldInventory(listed, described);
    r := Ok(Inventory(asked, listedIn, intents));
  }

  /**
   * No sentence in the inventory is made up: whatever an intent can be asked in a language stands in a definition the
   * hub attached to one of its rows in that language, or in one it gave when asked to describe that very registration.
   */
  lemma SentencesAreTheHubs(entries: seq<Entry>, described: DW.Found, key: IntentKey, lang: string)
    requires key in Inventoried(entries, described) && lang in Inventoried(entries, described)[key].phrases
    requires Inventoried(entries, described)[key].phrases[lang] != []
    ensures var sentences := Inventoried(entries, described)[key].phrases[lang];
      var wanted := DW.Wanted(key.skill, key.intent, lang);
      || (exists e <- entries ::
            IsFor(e, key, lang) && e.row.definition.Some? && sentences == SamplesOf(e.row.definition.value))
      || (wanted in described && exists d <- described[wanted] :: d.samples == sentences)
  {
    SomeRowSaysSo(entries, described, key, lang);
  }

  lemma {:induction false} SomeRowSaysSo(entries: seq<Entry>, described: DW.Found, key: IntentKey, lang: string)
    requires LastSentences(entries, key, lang, described) != []
    ensures exists e <- entries ::
              IsFor(e, key, lang) && LastSentences(entries, key, lang, described) == Sentences(e, described)
    decreases |entries|
  {
    hide Sentences;
    var n := |entries| - 1;
    assert entries == entries[..n] + [entries[n]];
    if !IsFor(entries[n], key, lang) || Sentences(entries[n], described) == [] {
      SomeRowSaysSo(entries[..n], described, key, lang);
    }
  }

  lemma {:induction false} ListedTagsAreFiledUnder(answers: seq<Listing>, lower: string -> string)
    ensures forall tag <- Tags(Listed(answers, lower).0) :: tag in Listed(answers, lower).1
    decreases |answers|
  {
    hide Listed, SameLanguage;
    if answers == [] {
      NothingListed(lower);
    } else {
      var most, last := answers[..|answers| - 1], answers[|answers| - 1];
      assert answers == most + [last];
      ListedTagsAreFiledUnder(most, lower);
      TagsOneMore(most, last, lower);
      var before := Listed(most, lower).0;
      assert PlaceOf(before, last.tag, lower) == |before| ==> (Tags(before) + [last.tag])[|before|] == last.tag;
    }
  }

  lemma {:induction false} EntriesAreListed(listed: seq<Listing>)
    ensures forall e <- Entries(listed) :: e.lang in Tags(listed)
    decreases |listed|
  {
    if listed != [] {
      var n := |listed| - 1;
      EntriesAreListed(listed[..n]);
      assert Tags(listed) == Tags(listed[..n]) + [listed[n].tag];
    }
  }

  /**
   * The languages of an inventory are all different, and `listedIn` tells for each the tag it was listed under. An
   * intent's sentences stand under those tags only, and never under two spellings of one language.
   */
  lemma InventoryIsInStep(languages: seq<string>, lists: string -> Listing, describe: bool, windows: nat -> DW.Window,
                          start: nat, timeout: nat, lower: string -> string)
    requires InventoryOf(languages, lists, describe, windows, start, timeout, lower).Ok?
    ensures var inv := InventoryOf(languages, lists, describe, windows, start, timeout, lower).value;
      && inv.languages != [] && Different(inv.languages, lower)
      && |inv.listedIn| == |inv.languages|
      && (forall i :: 0 <= i < |inv.languages| ==> SameLanguage(inv.listedIn[i], lists(inv.languages[i]).tag, lower))
      && (forall key <- inv.intents, lang <- inv.intents[key].phrases :: lang in inv.listedIn)
      && (forall key <- inv.intents, lang <- inv.intents[key].phrases, other <- inv.intents[key].phrases ::
            SameLanguage(lang, other, lower) ==> lang == other)
  {
    hide Chosen, Listed, Entries, SameLanguage, DescribedFor, FirstEngine, AnyEnabled, LastSentences;
    var asked := Asked(languages, lower);
    ChosenAreTheLanguagesAskedFor(languages, lower);
    var answers := AnswersFor(asked, lists);
    var listed := Listed(answers, lower).0;
    ListingsTellLanguagesApart(answers, lower);
    ListedTagsAreFiledUnder(answers, lower);
    EntriesAreListed(listed);
    TagsDiffer(Tags(listed), lower);
  }

  lemma TagsDiffer(tags: seq<string>, lower: string -> string)
    requires Different(tags, lower)
    ensures forall tag <- tags, other <- tags :: SameLanguage(tag, other, lower) ==> tag == other
  {
    hide SameLanguage;
    forall tag <- tags, other <- tags | SameLanguage(tag, other, lower) ensures tag == other {
      var i :| 0 <= i < |tags| && tags[i] == tag;
      var j :| 0 <= j < |tags| && tags[j] == other;
      SameLanguageIsMutual(tag, other, lower);
    }
  }

  lemma SameLanguageIsMutual(a: string, b: string, lower: string -> string)
    ensures SameLanguage(a, b, lower) == SameLanguage(b, a, lower)
  {}

  /** What is shown for an intent in a language of whose rows none came with a definition. */
  ghost predicate ShowsWhatWasDescribed(shown: seq<string>, found: DW.Found, wanted: DW.Wanted)
  {
    if wanted in found && exists d <- found[wanted] :: d.samples != [] then
      exists i :: IsFirstWithSamples(found[wanted], i) && shown == found[wanted][i].samples
    else shown == []
  }

  /**
   * What was described is what is shown: for an enabled template row without a definition, where no row of its intent
   * in that language has one, the inventory asks to describe that very registration and shows the samples of the first
   * definition it got that has any, or nothing.
   */
  lemma InventoryShowsWhatWasDescribed(languages: seq<string>, lists: string -> Listing, windows: nat -> DW.Window,
                                       start: nat, timeout: nat, lower: string -> string, e: Entry)
    requires var entries := Entries(Listed(AnswersFor(Asked(languages, lower), lists), lower).0);
      && e in entries && e.row.enabled && e.row.definition == None && e.row.matcher == "template"
      && forall x <- entries :: KeyOf(x) == KeyOf(e) && x.lang == e.lang ==> x.row.definition == None
    ensures var entries := Entries(Listed(AnswersFor(Asked(languages, lower), lists), lower).0);
      var wanted := DW.Wanted(e.row.skill, e.row.intent, e.lang);
      var d := DW.Describe(WantedOf(entries), 32, windows, start, start + timeout, lower);
      var r := InventoryOf(languages, lists, true, windows, start, timeout, lower);
      && wanted in WantedOf(entries)
      && (r.Ok? <==> d.result.Ok?) && (r.Err? ==> r.error == d.result.error)
      && (r.Ok? ==>
            && KeyOf(e) in r.value.intents && e.lang in r.value.intents[KeyOf(e)].phrases
            && ShowsWhatWasDescribed(r.value.intents[KeyOf(e)].phrases[e.lang], d.result.value, wanted))
  {
    hide Listed, Entries, Asked, WantedOf, DW.Describe, Inventoried, ShowsWhatWasDescribed;
    var entries := Entries(Listed(AnswersFor(Asked(languages, lower), lists), lower).0);
    var wanted := DW.Wanted(e.row.skill, e.row.intent, e.lang);
    WantedAreTheRowsInNeed(entries, wanted);
    var d := DW.Describe(WantedOf(entries), 32, windows, start, start + timeout, lower);
    if d.result.Ok? {
      FoldShowsWhatWasDescribed(entries, d.result.value, e);
    }
  }

  lemma FoldShowsWhatWasDescribed(entries: seq<Entry>, found: DW.Found, e: Entry)
    requires e in entries
    requires forall x <- entries :: KeyOf(x) == KeyOf(e) && x.lang == e.lang ==> x.row.definition == None
    ensures var intents := Inventoried(entries, found);
      && KeyOf(e) in intents && e.lang in intents[KeyOf(e)].phrases
      && ShowsWhatWasDescribed(intents[KeyOf(e)].phrases[e.lang], found, DW.Wanted(e.row.skill, e.row.intent, e.lang))
  {
    hide FirstEngine, AnyEnabled, LastSentences, ShowsWhatWasDescribed;
    SameRowsSaySo(entries, found, e);
    ShownAreTheFirst(found, DW.Wanted(e.row.skill, e.row.intent, e.lang));
  }

  function SamplesFor(found: DW.Found, wanted: DW.Wanted): seq<string>
  {
    if wanted in found then FirstSamples(found[wanted]) else []
  }

  lemma SameRowsSaySo(entries: seq<Entry>, found: DW.Found, e: Entry)
    requires e in entries
    requires forall x <- entries :: KeyOf(x) == KeyOf(e) && x.lang == e.lang ==> x.row.definition == None
    ensures LastSentences(entries, KeyOf(e), e.lang, found) ==
            SamplesFor(found, DW.Wanted(e.row.skill, e.row.intent, e.lang))
  {
    hide LastSentences;
    var key, lang := KeyOf(e), e.lang;
    assert forall x <- entries :: IsFor(x, key, lang) ==>
      Sentences(x, found) == SamplesFor(found, DW.Wanted(e.row.skill, e.row.intent, e.lang));
    hide Sentences, SamplesFor;
    EmptyMeansNoSentences(entries, key, lang, found);
    if LastSentences(entries, key, lang, found) != [] {
      SomeRowSaysSo(entries, found, key, lang);
    }
  }

  lemma ShownAreTheFirst(found: DW.Found, wanted: DW.Wanted)
    ensures ShowsWhatWasDescribed(SamplesFor(found, wanted), found, wanted)
  {
    if wanted in found && exists d <- found[wanted] :: d.samples != [] {
      var i := FirstWithSamples(found[wanted]);
      FirstSamplesAreTheFirst(found[wanted], i);
    }
  }

  lemma {:induction false} FirstWithSamples(definitions: seq<DW.Definition>) returns (i: int)
    requires exists d <- definitions :: d.samples != []
    ensures IsFirstWithSamples(definitions, i)
  {
    if definitions[0].samples != [] {
      i := 0;
    } else {
      assert definitions == [definitions[0]] + definitions[1..];
      var rest := FirstWithSamples(definitions[1..]);
      i := rest + 1;
      assert forall j :: 0 < j < i ==> definitions[j] == definitions[1..][j - 1];
    }
  }

  /** A definition that came with a row is shown, when no later row of the intent in that language brings anything. */
  lemma OwnDefinitionsAreShown(entries: seq<Entry>, described: DW.Found, n: nat)
    requires n < |entries| && entries[n].row.definition.Some? && SamplesOf(entries[n].row.definition.value) != []
    requires forall i :: n < i < |entries| && IsFor(entries[i], KeyOf(entries[n]), entries[n].lang) ==>
               Sentences(entries[i], described) == []
    ensures var key, lang, intents := KeyOf(entries[n]), entries[n].lang, Inventoried(entries, described);
      && key in intents && lang in intents[key].phrases
      && intents[key].phrases[lang] == SamplesOf(entries[n].row.definition.value)
  {
    hide LastSentences, SamplesOf, FirstEngine, AnyEnabled;
    LastRowWithSentencesCounts(entries, n, KeyOf(entries[n]), entries[n].lang, described);
  }
}
