/** The string operations of Rust's standard library that the components rely on. */
module Text {

  /** The characters Unicode calls white space. */
  predicate IsWhitespace(c: char)
  {
    var n := c as int;
    || 0x9 <= n <= 0xD || n == 0x20 || n == 0x85 || n == 0xA0 || n == 0x1680
    || 0x2000 <= n <= 0x200A || n == 0x2028 || n == 0x2029 || n == 0x202F || n == 0x205F || n == 0x3000
  }

  function TrimStart(s: string): (r: string)
    ensures r == [] <==> IsBlank(s)
    ensures |r| <= |s|
  {
    if s == [] then [] else if IsWhitespace(s[0]) then TrimStart(s[1..]) else s
  }

  function TrimEnd(s: string): (r: string)
    ensures |r| <= |s|
  {
    if s == [] then [] else if IsWhitespace(s[|s| - 1]) then TrimEnd(s[..|s| - 1]) else s
  }

  function Trim(s: string): string
  {
    TrimEnd(TrimStart(s))
  }

  predicate IsBlank(s: string)
  {
    forall c :: c in s ==> IsWhitespace(c)
  }

  function LowerAscii(c: char): char
  {
    if 'A' <= c <= 'Z' then (c as int + 32) as char else c
  }

  predicate EqualIgnoringCase(a: string, b: string)
  {
    |a| == |b| && forall i :: 0 <= i < |a| ==> LowerAscii(a[i]) == LowerAscii(b[i])
  }

  /** The length of the run of characters up to the first white space. */
  function WordLength(s: string): (n: nat)
    ensures n <= |s|
    ensures s != [] && !IsWhitespace(s[0]) ==> n > 0
  {
    if s == [] || IsWhitespace(s[0]) then 0 else 1 + WordLength(s[1..])
  }

  /** The words between white space. */
  function Words(s: string): (r: seq<string>)
    ensures r == [] <==> IsBlank(s)
    decreases |s|
  {
    var t := TrimStart(s);
    if t == [] then [] else
      TrimStartStops(s);
      [t[..WordLength(t)]] + Words(t[WordLength(t)..])
  }

  lemma TrimStartStops(s: string)
    ensures TrimStart(s) != [] ==> !IsWhitespace(TrimStart(s)[0])
  {
  }

  function Join(parts: seq<string>): string
  {
    if parts == [] then []
    else if |parts| == 1 then parts[0]
    else parts[0] + " " + Join(parts[1..])
  }

  /** Words joined by single spaces. */
  function Normalize(s: string): string
  {
    Join(Words(s))
  }

  lemma NormalizeIsEmptyOnlyIfBlank(s: string)
    ensures Normalize(s) == [] <==> IsBlank(s)
  {
    var t := TrimStart(s);
    if t != [] {
      TrimStartStops(s);
      assert Words(s)[0] == t[..WordLength(t)] != [];
    }
  }

  /** Trimming takes white space off both ends, all of it, and nothing else. */
  lemma TrimTakesOffWhiteSpace(s: string) returns (before: string, after: string)
    ensures s == before + Trim(s) + after && IsBlank(before) && IsBlank(after)
    ensures Trim(s) != [] ==> !IsWhitespace(Trim(s)[0]) && !IsWhitespace(Trim(s)[|Trim(s)| - 1])
  {
    before := TrimStartTakes(s);
    TrimStartStops(s);
    after := TrimEndTakes(TrimStart(s));
    assert s == before + (Trim(s) + after);
  }

  lemma {:induction false} TrimStartTakes(s: string) returns (before: string)
    ensures s == before + TrimStart(s) && IsBlank(before)
  {
    before := [];
    if s != [] && IsWhitespace(s[0]) {
      var rest := TrimStartTakes(s[1..]);
      before := [s[0]] + rest;
    }
  }

  lemma {:induction false} TrimEndTakes(s: string) returns (after: string)
    ensures s == TrimEnd(s) + after && IsBlank(after)
    ensures TrimEnd(s) != [] ==> !IsWhitespace(TrimEnd(s)[|TrimEnd(s)| - 1]) && TrimEnd(s)[0] == s[0]
  {
    after := [];
    if s != [] && IsWhitespace(s[|s| - 1]) {
      var rest := TrimEndTakes(s[..|s| - 1]);
      after := rest + [s[|s| - 1]];
    }
  }

  /** A text between white space is what trimming leaves. */
  lemma TrimFinds(before: string, text: string, after: string)
    requires IsBlank(before) && IsBlank(after)
    requires text != [] ==> !IsWhitespace(text[0]) && !IsWhitespace(text[|text| - 1])
    ensures Trim(before + text + after) == text
  {
    TrimStartFinds(before, text + after);
    assert before + text + after == before + (text + after);
    if text == [] {
      assert text + after == after;
      BlankTrimsToNothing(after);
    } else {
      TrimEndFinds(text, after);
    }
  }

  lemma {:induction false} TrimStartFinds(before: string, rest: string)
    requires IsBlank(before)
    ensures TrimStart(before + rest) == TrimStart(rest)
  {
    if before == [] {
      assert before + rest == rest;
    } else {
      TrimStartFinds(before[1..], rest);
      assert (before + rest)[1..] == before[1..] + rest;
    }
  }

  lemma {:induction false} TrimEndFinds(text: string, after: string)
    requires text != [] && !IsWhitespace(text[|text| - 1]) && IsBlank(after)
    ensures TrimEnd(text + after) == text
    decreases |after|
  {
    if after == [] {
      assert text + after == text;
    } else {
      var n := |after| - 1;
      TrimEndFinds(text, after[..n]);
      assert (text + after)[..|text + after| - 1] == text + after[..n];
    }
  }

  lemma BlankTrimsToNothing(s: string)
    requires IsBlank(s)
    ensures Trim(s) == []
  {}

  /** The words with the gaps before, between and after them. */
  function Spaced(words: seq<string>, gaps: seq<string>): string
    requires |gaps| == |words| + 1
  {
    if words == [] then gaps[0] else gaps[0] + words[0] + Spaced(words[1..], gaps[1..])
  }

  ghost predicate IsWord(word: string)
  {
    word != [] && forall c <- word :: !IsWhitespace(c)
  }

  /** Blank gaps, and none but the outer two is empty. */
  ghost predicate AreGaps(gaps: seq<string>)
  {
    forall i :: 0 <= i < |gaps| ==> IsBlank(gaps[i]) && (0 < i < |gaps| - 1 ==> gaps[i] != [])
  }

  /** Every text is its words, none with white space in it, with white space around them. */
  lemma {:induction false} WordsMakeUpTheText(s: string) returns (gaps: seq<string>)
    ensures |gaps| == |Words(s)| + 1 && s == Spaced(Words(s), gaps) && AreGaps(gaps)
    ensures forall word <- Words(s) :: IsWord(word)
    decreases |s|
  {
    hide IsWhitespace, Spaced, AreGaps;
    var t := TrimStart(s);
    var before := TrimStartTakes(s);
    if t == [] {
      gaps := [s];
      NoWords(s);
    } else {
      TrimStartStops(s);
      var n := WordLength(t);
      WordLengthStops(t);
      var rest := WordsMakeUpTheText(t[n..]);
      if |rest| > 1 && rest[0] == [] {
        NoGapNoSpace(Words(t[n..]), rest);
      }
      gaps := [before] + rest;
      OneMoreWord(before, t[..n], Words(t[n..]), rest);
      assert s == before + t[..n] + t[n..];
    }
  }

  lemma NoWords(s: string)
    requires IsBlank(s)
    ensures Words(s) == [] && s == Spaced([], [s]) && AreGaps([s])
  {}

  lemma OneMoreWord(before: string, word: string, words: seq<string>, gaps: seq<string>)
    requires |gaps| == |words| + 1 && AreGaps(gaps) && (words != [] ==> gaps[0] != []) && IsBlank(before)
    ensures AreGaps([before] + gaps)
    ensures Spaced([word] + words, [before] + gaps) == before + word + Spaced(words, gaps)
  {
    hide IsWhitespace, IsBlank;
    var all := [before] + gaps;
    assert all[1..] == gaps && ([word] + words)[1..] == words;
    forall i | 0 <= i < |all| ensures IsBlank(all[i]) && (0 < i < |all| - 1 ==> all[i] != []) {
      assert i > 0 ==> all[i] == gaps[i - 1];
    }
  }

  lemma {:induction false} WordLengthStops(s: string)
    ensures var n := WordLength(s);
      (forall c <- s[..n] :: !IsWhitespace(c)) && (n < |s| ==> IsWhitespace(s[n]))
  {
    if s != [] && !IsWhitespace(s[0]) {
      WordLengthStops(s[1..]);
      var n := WordLength(s);
      assert s[..n] == [s[0]] + s[1..][..n - 1];
    }
  }

  /** With no gap before it the first word begins the text. */
  lemma NoGapNoSpace(words: seq<string>, gaps: seq<string>)
    requires |gaps| == |words| + 1 && words != [] && gaps[0] == [] && IsWord(words[0])
    ensures Spaced(words, gaps) != [] && !IsWhitespace(Spaced(words, gaps)[0])
  {
    WordFirst(words[0], Spaced(words[1..], gaps[1..]));
    assert gaps[0] + words[0] == words[0];
  }

  lemma WordFirst(word: string, rest: string)
    requires IsWord(word)
    ensures word + rest != [] && !IsWhitespace((word + rest)[0])
  {
    hide IsWhitespace;
    assert (word + rest)[0] == word[0] && word[0] in word;
  }

  function SingleGaps(n: nat): (gaps: seq<string>)
    ensures |gaps| == n + 1
  {
    seq(n + 1, i => if 0 < i < n then " " else [])
  }

  /** Normalising keeps the words and puts one space between them, and none around them. */
  lemma {:induction false} JoinSpacesSingly(words: seq<string>)
    ensures Join(words) == Spaced(words, SingleGaps(|words|))
  {
    if |words| > 1 {
      JoinSpacesSingly(words[1..]);
      var gaps, rest := SingleGaps(|words|), SingleGaps(|words| - 1);
      assert gaps[1..][1..] == rest[1..];
      assert Spaced(words[1..], gaps[1..]) == " " + words[1] + Spaced(words[1..][1..], rest[1..]);
      assert Spaced(words[1..], rest) == words[1] + Spaced(words[1..][1..], rest[1..]);
    } else if |words| == 1 {
      assert Spaced(words[1..], SingleGaps(1)[1..]) == [];
    }
  }
}
