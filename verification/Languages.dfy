/**
 * When two language tags name the same language (src/intents.rs). What lower-casing does to a tag is a parameter:
 * Unicode's tables are not part of this model.
 */
module Languages {
  import opened Text

  const DEFAULT_LANG: string := "en-us"

  function Dashes(s: string): (r: string)
    ensures |r| == |s| && forall i :: 0 <= i < |s| ==> r[i] == if s[i] == '_' then '-' else s[i]
  {
    seq(|s|, i requires 0 <= i < |s| => if s[i] == '_' then '-' else s[i])
  }

  function FoldLanguage(tag: string, lower: string -> string): string
  {
    Dashes(lower(Trim(tag)))
  }

  predicate SameLanguage(a: string, b: string, lower: string -> string)
  {
    FoldLanguage(a, lower) == FoldLanguage(b, lower)
  }

  /** Whether some of the tags names this language. */
  predicate Names(tags: seq<string>, tag: string, lower: string -> string)
  {
    exists i :: 0 <= i < |tags| && SameLanguage(tags[i], tag, lower)
  }

  /** The first spelling of each language asked for, in the order given. */
  function Chosen(languages: seq<string>, lower: string -> string): seq<string>
    decreases |languages|
  {
    if languages == [] then []
    else
      var most, tag := Chosen(languages[..|languages| - 1], lower), Trim(languages[|languages| - 1]);
      if tag == [] || Names(most, tag, lower) then most else most + [tag]
  }

  method ChosenLanguages(languages: seq<string>, lower: string -> string) returns (chosen: seq<string>)
    ensures chosen == if Chosen(languages, lower) == [] then [DEFAULT_LANG] else Chosen(languages, lower)
  {
    chosen := [];
    for i := 0 to |languages|
      invariant chosen == Chosen(languages[..i], lower)
    {
      assert languages[..i + 1][..i] == languages[..i];
      var tag := Trim(languages[i]);
      if tag != [] && !Names(chosen, tag, lower) {
        chosen := chosen + [tag];
      }
    }
    assert languages[..|languages|] == languages;
    if chosen == [] {
      chosen := [DEFAULT_LANG];
    }
  }

  ghost predicate Different(tags: seq<string>, lower: string -> string)
  {
    forall i, j :: 0 <= i < j < |tags| ==> !SameLanguage(tags[i], tags[j], lower)
  }

  /** No two of the chosen tags name one language, each was asked for, and every language asked for is chosen. */
  lemma {:induction false} ChosenAreTheLanguagesAskedFor(languages: seq<string>, lower: string -> string)
    ensures Different(Chosen(languages, lower), lower)
    ensures forall tag <- Chosen(languages, lower) :: tag != [] && exists l <- languages :: Trim(l) == tag
    ensures forall l <- languages :: Trim(l) == [] || Names(Chosen(languages, lower), Trim(l), lower)
    decreases |languages|
  {
    hide SameLanguage, Trim;
    if languages != [] {
      var n := |languages| - 1;
      var most, tag := Chosen(languages[..n], lower), Trim(languages[n]);
      ChosenAreTheLanguagesAskedFor(languages[..n], lower);
      assert languages == languages[..n] + [languages[n]];
      var all := Chosen(languages, lower);
      forall l <- languages | Trim(l) != [] ensures Names(all, Trim(l), lower) {
        if Names(most, Trim(l), lower) {
          var i :| 0 <= i < |most| && SameLanguage(most[i], Trim(l), lower);
          assert all[i] == most[i];
        } else {
          assert l == languages[n] && all[|most|] == tag;
          SameAsItself(tag, lower);
        }
      }
    }
  }

  lemma SameAsItself(tag: string, lower: string -> string)
    ensures SameLanguage(tag, tag, lower)
  {}

  /** Asking for more languages never changes or moves the ones already chosen. */
  lemma {:induction false} ChosenGrows(languages: seq<string>, more: seq<string>, lower: string -> string)
    ensures Chosen(languages, lower) <= Chosen(languages + more, lower)
    decreases |more|
  {
    hide Names, Trim;
    if more != [] {
      var n := |more| - 1;
      ChosenGrows(languages, more[..n], lower);
      assert (languages + more)[..|languages| + n] == languages + more[..n];
    } else {
      assert languages + more == languages;
    }
  }

  /**
   * Two tags name one language exactly when, trimmed and in lower case, they are the same character by character, a
   * dash and an underscore counting as one.
   */
  lemma SameLanguageExactlyWhen(a: string, b: string, lower: string -> string)
    ensures var x, y := lower(Trim(a)), lower(Trim(b));
      SameLanguage(a, b, lower) <==>
      |x| == |y| && forall i :: 0 <= i < |x| ==> x[i] == y[i] || (x[i] in "-_" && y[i] in "-_")
  {
    hide Trim;
    var x, y := lower(Trim(a)), lower(Trim(b));
    var p, q := Dashes(x), Dashes(y);
    if |x| == |y| && forall i :: 0 <= i < |x| ==> x[i] == y[i] || (x[i] in "-_" && y[i] in "-_") {
      forall i | 0 <= i < |p| ensures p[i] == q[i] {
        assert x[i] == y[i] || (x[i] in "-_" && y[i] in "-_");
      }
      assert p == q;
    }
    if p == q {
      forall i | 0 <= i < |x| ensures x[i] == y[i] || (x[i] in "-_" && y[i] in "-_") {
        assert p[i] == q[i];
        assert "-_"[0] == '-' && "-_"[1] == '_';
      }
    }
  }
}
