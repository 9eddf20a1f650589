/**
 The canonical form by which content is deduplicated and embeddings are cached.

 A text is collapsed to single spaces, stripped and lower-cased.  That form is exactly its
 words, lower-cased and joined by one space, and it determines them: two texts share it if
 and only if they have the same words up to letter case.  How a word is lower-cased is an
 arbitrary input, as long as it stays one word and needs it only once.
 */
module Normalization {
  import opened Text

  /** Every run of whitespace becomes one space. */
  function Collapse(s: string): string {
    if |s| == 0 then []
    else if !IsSpace(s[0]) then [s[0]] + Collapse(s[1..])
    else if |s| > 1 && IsSpace(s[1]) then Collapse(s[1..])
    else [' '] + Collapse(s[1..])
  }

  // Lower-casing may change lengths and look around inside a word.
  type Casing = string -> string

  function NormalizeForHash(text: string, lower: Casing): string {
    lower(Strip(Collapse(text)))
  }

  /** All that is needed of lower-casing: it works word by word, keeps words words, and has nothing to do twice. */
  ghost predicate ByWord(lower: Casing) {
    && lower([]) == []
    && (forall a, b :: lower(a + [' '] + b) == lower(a) + [' '] + lower(b))
    && (forall w :: IsWord(w) ==> IsWord(lower(w)) && lower(lower(w)) == lower(w))
  }

  // ---- words -----------------------------------------------------------------------

  /** The maximal runs of non-whitespace. */
  function Words(s: string): (words: seq<string>)
    ensures |s| > 0 && !IsSpace(s[0]) ==> |words| > 0
  {
    if |s| == 0 then []
    else
      var rest := Words(s[1..]);
      if IsSpace(s[0]) then rest
      else if |s| > 1 && !IsSpace(s[1]) then [[s[0]] + rest[0]] + rest[1..]
      else [[s[0]]] + rest
  }

  function LowerWords(words: seq<string>, lower: Casing): seq<string> {
    if |words| == 0 then [] else [lower(words[0])] + LowerWords(words[1..], lower)
  }

  predicate IsWord(w: string) {
    |w| > 0 && forall i :: 0 <= i < |w| ==> !IsSpace(w[i])
  }

  predicate AreWords(words: seq<string>) {
    |words| == 0 || (IsWord(words[0]) && AreWords(words[1..]))
  }

  lemma {:induction false} WordsAreWords(s: string)
    ensures AreWords(Words(s))
  {
    if |s| > 0 {
      WordsAreWords(s[1..]);
      var rest, words := Words(s[1..]), Words(s);
      if !IsSpace(s[0]) {
        if |s| > 1 && !IsSpace(s[1]) {
          assert words[1..] == rest[1..];
        } else {
          assert words[1..] == rest;
        }
      }
    }
  }

  lemma {:induction false} LowerWordsAreWords(words: seq<string>, lower: Casing)
    requires AreWords(words) && ByWord(lower)
    ensures AreWords(LowerWords(words, lower)) && |LowerWords(words, lower)| == |words|
  {
    if |words| > 0 {
      LowerWordsAreWords(words[1..], lower);
    }
  }

  // ---- the canonical form is the words, joined -----------------------------------------

  function Lead(s: string): string {
    if |s| > 0 && IsSpace(s[0]) then [' '] else []
  }

  function Trail(s: string): string {
    if |Words(s)| > 0 && IsSpace(s[|s| - 1]) then [' '] else []
  }

  lemma JoinCons(word: string, words: seq<string>)
    ensures Join([' '], [word] + words) == if |words| == 0 then word else word + [' '] + Join([' '], words)
  {
    assert ([word] + words)[1..] == words;
  }

  lemma JoinPrepends(c: char, word: string, words: seq<string>)
    ensures Join([' '], [[c] + word] + words) == [c] + Join([' '], [word] + words)
  {
    JoinCons(word, words);
    JoinCons([c] + word, words);
    if |words| > 0 {
      var tail := Join([' '], words);
      assert ([c] + word) + [' '] + tail == [c] + (word + [' '] + tail);
    }
  }

  lemma {:induction false} NoWordsMeansBlank(s: string)
    requires |Words(s)| == 0
    ensures Blank(s)
  {
    if |s| > 0 {
      NoWordsMeansBlank(s[1..]);
      assert forall i :: 0 < i < |s| ==> s[i] == s[1..][i - 1];
    }
  }

  predicate Padded(s: string) {
    Collapse(s) == Lead(s) + Join([' '], Words(s)) + Trail(s)
  }

  lemma PaddedInsideAWord(s: string)
    requires |s| > 1 && !IsSpace(s[0]) && !IsSpace(s[1]) && Padded(s[1..])
    ensures Padded(s)
  {
    var words := Words(s[1..]);
    JoinPrepends(s[0], words[0], words[1..]);
    assert words == [words[0]] + words[1..];
    assert s[1..][|s| - 2] == s[|s| - 1];
  }

  lemma PaddedAtTheEndOfAWord(s: string)
    requires |s| > 0 && !IsSpace(s[0]) && (|s| == 1 || IsSpace(s[1])) && Padded(s[1..])
    ensures Padded(s)
  {
    var rest := s[1..];
    JoinCons([s[0]], Words(rest));
    if |rest| > 0 {
      assert rest[|rest| - 1] == s[|s| - 1];
      if |Words(rest)| == 0 {
        NoWordsMeansBlank(rest);
      }
    }
  }

  /** Collapsing leaves the words, one space between neighbours, and at most one space at either end. */
  lemma {:induction false} CollapseIsJoinedWords(s: string)
    ensures Padded(s)
  {
    if |s| > 0 {
      CollapseIsJoinedWords(s[1..]);
      if IsSpace(s[0]) {
        assert |s| > 1 ==> s[1..][|s| - 2] == s[|s| - 1];
      } else if |s| > 1 && !IsSpace(s[1]) {
        PaddedInsideAWord(s);
      } else {
        PaddedAtTheEndOfAWord(s);
      }
    }
  }

  predicate Trimmed(s: string) {
    |s| == 0 || (!IsSpace(s[0]) && !IsSpace(s[|s| - 1]))
  }

  lemma {:induction false} JoinedWordsAreTrimmed(words: seq<string>)
    requires AreWords(words)
    ensures Trimmed(Join([' '], words)) && (|words| > 0 ==> |Join([' '], words)| > 0)
  {
    if |words| > 1 {
      JoinedWordsAreTrimmed(words[1..]);
    }
  }

  lemma StripUndoesPadding(lead: string, s: string, trail: string)
    requires Trimmed(s) && lead in {[], [' ']} && trail in {[], [' ']} && (|s| == 0 ==> |trail| == 0)
    ensures Strip(lead + s + trail) == s
  {
    var padded := s + trail;
    assert lead + s + trail == lead + padded;
    if |lead| == 1 {
      assert (lead + padded)[1..] == padded;
    } else {
      assert lead + padded == padded;
    }
    assert LStrip(lead + padded) == padded;
    assert RStrip(s) == s;
    if |trail| == 1 {
      assert padded[|padded| - 1] == ' ' && padded[..|padded| - 1] == s;
    } else {
      assert padded == s;
    }
  }

  lemma {:induction false} LowerJoin(words: seq<string>, lower: Casing)
    requires ByWord(lower)
    ensures lower(Join([' '], words)) == Join([' '], LowerWords(words, lower))
  {
    if |words| == 1 {
      assert LowerWords(words, lower) == [lower(words[0])];
    } else if |words| > 1 {
      LowerJoin(words[1..], lower);
      JoinCons(lower(words[0]), LowerWords(words[1..], lower));
    }
  }

  lemma NormalizedIsJoinedWords(text: string, lower: Casing)
    requires ByWord(lower)
    ensures NormalizeForHash(text, lower) == Join([' '], LowerWords(Words(text), lower))
  {
    CollapseIsJoinedWords(text);
    WordsAreWords(text);
    JoinedWordsAreTrimmed(Words(text));
    StripUndoesPadding(Lead(text), Join([' '], Words(text)), Trail(text));
    LowerJoin(Words(text), lower);
  }

  // ---- and it determines them ------------------------------------------------------------

  lemma {:induction false} WordsOfWord(word: string, after: string)
    requires IsWord(word) && (|after| == 0 || IsSpace(after[0]))
    ensures Words(word + after) == [word] + Words(after)
  {
    var all := word + after;
    assert all[1..] == word[1..] + after;
    if |word| > 1 {
      WordsOfWord(word[1..], after);
      assert [word[0]] + word[1..] == word;
    } else {
      assert all[1..] == after && word == [word[0]];
      assert |after| > 0 ==> all[1] == after[0];
    }
  }

  lemma {:induction false} WordsOfJoin(words: seq<string>)
    requires AreWords(words)
    ensures Words(Join([' '], words)) == words
  {
    if |words| == 1 {
      WordsOfWord(words[0], []);
      assert words[0] + [] == words[0];
      assert words == [words[0]];
    } else if |words| > 1 {
      var rest := Join([' '], words[1..]);
      WordsOfJoin(words[1..]);
      WordsOfWord(words[0], [' '] + rest);
      assert ([' '] + rest)[1..] == rest;
      assert words[0] + ([' '] + rest) == words[0] + [' '] + rest;
    }
  }

  /** Two texts get the same key exactly when they have the same words up to letter case, whatever the whitespace. */
  lemma SameKeyIffSameWords(a: string, b: string, lower: Casing)
    requires ByWord(lower)
    ensures NormalizeForHash(a, lower) == NormalizeForHash(b, lower) <==> LowerWords(Words(a), lower) == LowerWords(Words(b), lower)
  {
    NormalizedIsJoinedWords(a, lower);
    NormalizedIsJoinedWords(b, lower);
    WordsAreWords(a);
    WordsAreWords(b);
    LowerWordsAreWords(Words(a), lower);
    LowerWordsAreWords(Words(b), lower);
    WordsOfJoin(LowerWords(Words(a), lower));
    WordsOfJoin(LowerWords(Words(b), lower));
  }

  lemma {:induction false} LowerWordsTwice(words: seq<string>, lower: Casing)
    requires AreWords(words) && ByWord(lower)
    ensures LowerWords(LowerWords(words, lower), lower) == LowerWords(words, lower)
  {
    if |words| > 0 {
      LowerWordsTwice(words[1..], lower);
    }
  }

  /** Normalizing twice changes nothing. */
  lemma NormalizingIsIdempotent(text: string, lower: Casing)
    requires ByWord(lower)
    ensures NormalizeForHash(NormalizeForHash(text, lower), lower) == NormalizeForHash(text, lower)
  {
    NormalizedIsJoinedWords(text, lower);
    WordsAreWords(text);
    LowerWordsAreWords(Words(text), lower);
    WordsOfJoin(LowerWords(Words(text), lower));
    LowerWordsTwice(Words(text), lower);
    SameKeyIffSameWords(NormalizeForHash(text, lower), text, lower);
  }

  // ---- lower-casing of ASCII letters is one of these ---------------------------------------

  function LowerChar(c: char): (lower: char)
    ensures IsSpace(lower) <==> IsSpace(c)
  {
    if 'A' <= c <= 'Z' then c + ' ' else c
  }

  function AsciiLower(s: string): string {
    if |s| == 0 then [] else [LowerChar(s[0])] + AsciiLower(s[1..])
  }

  lemma {:induction false} AsciiLowerAt(s: string)
    ensures |AsciiLower(s)| == |s| && forall i :: 0 <= i < |s| ==> AsciiLower(s)[i] == LowerChar(s[i])
    ensures forall i :: 0 <= i < |s| ==>
              AsciiLower(s)[i] as int == if 65 <= s[i] as int <= 90 then s[i] as int + 32 else s[i] as int
  {
    if |s| > 0 {
      AsciiLowerAt(s[1..]);
    }
  }

  lemma {:induction false} AsciiLowerAppend(a: string, b: string)
    ensures AsciiLower(a + b) == AsciiLower(a) + AsciiLower(b)
  {
    if |a| == 0 {
      assert a + b == b;
    } else {
      assert (a + b)[1..] == a[1..] + b;
      AsciiLowerAppend(a[1..], b);
    }
  }

  lemma LoweredWord(w: string)
    requires IsWord(w)
    ensures IsWord(AsciiLower(w))
  {
    AsciiLowerAt(w);
  }

  lemma LoweredTwice(w: string)
    ensures AsciiLower(AsciiLower(w)) == AsciiLower(w)
  {
    AsciiLowerAt(w);
    AsciiLowerAt(AsciiLower(w));
  }

  lemma LoweredAroundSpace(a: string, b: string)
    ensures AsciiLower(a + [' '] + b) == AsciiLower(a) + [' '] + AsciiLower(b)
  {
    AsciiLowerAppend(a + [' '], b);
    AsciiLowerAppend(a, [' ']);
  }

  lemma AsciiLowersByWord()
    ensures ByWord(AsciiLower)
  {
    forall a: string, b: string ensures AsciiLower(a + [' '] + b) == AsciiLower(a) + [' '] + AsciiLower(b) {
      LoweredAroundSpace(a, b);
    }
    forall w: string | IsWord(w) ensures IsWord(AsciiLower(w)) && AsciiLower(AsciiLower(w)) == AsciiLower(w) {
      LoweredWord(w);
      LoweredTwice(w);
    }
  }
}
