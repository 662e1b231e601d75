/** The maximal runs of wanted characters in a text: the reference against which the two
    character-level normalizers are proved. */
module Slugs {
  import opened Text

  /** The maximal runs of characters that `keep` accepts, in order. */
  function Words(s: string, keep: char -> bool): seq<string> {
    if s == "" then []
    else
      var n := |s| - 1;
      var before := Words(s[..n], keep);
      if !keep(s[n]) then before
      else if n > 0 && keep(s[n - 1]) && before != [] then before[..|before| - 1] + [before[|before| - 1] + [s[n]]]
      else before + [[s[n]]]
  }

  predicate IsWord(word: string, keep: char -> bool) {
    word != "" && forall c :: c in word ==> keep(c)
  }

  lemma {:induction false} WordsProperties(s: string, keep: char -> bool)
    ensures s != "" && keep(s[|s| - 1]) ==> Words(s, keep) != []
    ensures forall i :: 0 <= i < |Words(s, keep)| ==> IsWord(Words(s, keep)[i], keep)
  {
    if s != "" {
      var n := |s| - 1;
      var before := Words(s[..n], keep);
      WordsProperties(s[..n], keep);
      if keep(s[n]) {
        assert IsWord([s[n]], keep);
        if before != [] {
          var last := before[|before| - 1];
          assert forall c :: c in last + [s[n]] ==> c in last || c == s[n];
          assert IsWord(last + [s[n]], keep);
        }
      }
    }
  }

  /** Prefixes only: the words of a text extended by one character. */
  lemma WordsStep(s: string, n: nat, keep: char -> bool)
    requires n < |s|
    ensures Words(s[..n + 1], keep) ==
      var before := Words(s[..n], keep);
      if !keep(s[n]) then before
      else if n > 0 && keep(s[n - 1]) then
        (assert before != [] by { WordsProperties(s[..n], keep); assert s[..n][n - 1] == s[n - 1]; }
         before[..|before| - 1] + [before[|before| - 1] + [s[n]]])
      else before + [[s[n]]]
  {
    WordsProperties(s[..n], keep);
    assert s[..n + 1][..n] == s[..n];
  }

  lemma {:induction false} JoinAppend(words: seq<string>, word: string, separator: string)
    ensures Join(words + [word], separator) == if words == [] then word else Join(words, separator) + separator + word
  {
    if |words| > 1 {
      JoinAppend(words[1..], word, separator);
      assert (words + [word])[1..] == words[1..] + [word];
      var rest := Join(words[1..], separator);
      ConcatAssociative(words[0] + separator, rest, separator);
      ConcatAssociative(words[0] + separator, rest + separator, word);
    } else if |words| == 1 {
      assert (words + [word])[1..] == [word];
    }
  }

  lemma JoinExtend(words: seq<string>, c: char, separator: string)
    requires words != []
    ensures Join(words[..|words| - 1] + [words[|words| - 1] + [c]], separator) == Join(words, separator) + [c]
  {
    var init, last := words[..|words| - 1], words[|words| - 1];
    assert init + [last] == words;
    JoinAppend(init, last, separator);
    JoinAppend(init, last + [c], separator);
    if init != [] {
      ConcatAssociative(Join(init, separator) + separator, last, [c]);
    }
  }

  /** The words of a text joined by a separator. */
  function Slug(s: string, keep: char -> bool, separator: string): string {
    Join(Words(s, keep), separator)
  }

  /** How the slug of a prefix grows by one character. */
  lemma SlugStep(s: string, n: nat, keep: char -> bool, separator: string)
    requires n < |s|
    ensures Slug(s[..n + 1], keep, separator) ==
      var slug := Slug(s[..n], keep, separator);
      if !keep(s[n]) then slug
      else if n > 0 && keep(s[n - 1]) then slug + [s[n]]
      else if Words(s[..n], keep) == [] then [s[n]]
      else slug + separator + [s[n]]
  {
    WordsStep(s, n, keep);
    WordsProperties(s[..n], keep);
    var before := Words(s[..n], keep);
    if keep(s[n]) {
      if n > 0 && keep(s[n - 1]) {
        assert s[..n][n - 1] == s[n - 1];
        JoinExtend(before, s[n], separator);
      } else {
        JoinAppend(before, [s[n]], separator);
      }
    }
  }

  /** A slug starts and ends with a wanted character, and is empty only when there is none. */
  lemma {:induction false} SlugEnds(s: string, keep: char -> bool, separator: string)
    ensures var slug := Slug(s, keep, separator);
      && (slug == "" <==> Words(s, keep) == [])
      && (slug != "" ==> keep(slug[0]) && keep(slug[|slug| - 1]))
  {
    if s != "" {
      var n := |s| - 1;
      SlugEnds(s[..n], keep, separator);
      SlugStep(s, n, keep, separator);
      WordsProperties(s, keep);
      WordsStep(s, n, keep);
      assert s[..n + 1] == s;
      WordsProperties(s[..n], keep);
      if n > 0 {
        assert s[..n][n - 1] == s[n - 1];
      }
    }
  }

  lemma WordsAppend(s: string, x: char, keep: char -> bool)
    ensures Words(s + [x], keep) ==
      var before := Words(s, keep);
      if !keep(x) then before
      else if s != "" && keep(s[|s| - 1]) && before != [] then before[..|before| - 1] + [before[|before| - 1] + [x]]
      else before + [[x]]
  {
    assert (s + [x])[..|s|] == s;
  }

  /** An unwanted character separates words. */
  lemma {:induction false} WordsAroundSeparator(a: string, c: char, b: string, keep: char -> bool)
    requires !keep(c)
    ensures Words(a + [c] + b, keep) == Words(a, keep) + Words(b, keep)
  {
    if b == "" {
      assert a + [c] + b == a + [c];
      WordsAppend(a, c, keep);
    } else {
      var init, x := b[..|b| - 1], b[|b| - 1];
      WordsAroundSeparator(a, c, init, keep);
      assert b == init + [x];
      ConcatAssociative(a + [c], init, [x]);
      WordsAroundStep(a + [c] + init, init, x, Words(a, keep), keep);
      assert init == "" ==> a + [c] + init == a + [c];
    }
  }

  lemma WordsAroundStep(s: string, b: string, x: char, first: seq<string>, keep: char -> bool)
    requires Words(s, keep) == first + Words(b, keep)
    requires if b == "" then s != "" && !keep(s[|s| - 1]) else s != "" && s[|s| - 1] == b[|b| - 1]
    ensures Words(s + [x], keep) == first + Words(b + [x], keep)
  {
    WordsAppend(s, x, keep);
    WordsAppend(b, x, keep);
    WordsProperties(b, keep);
    var words := Words(b, keep);
    if words != [] {
      RegroupLast(first, words, words[|words| - 1] + [x]);
    }
    ConcatAssociative(first, words, [[x]]);
  }

  lemma RegroupLast(first: seq<string>, words: seq<string>, word: string)
    requires words != []
    ensures (first + words)[..|first + words| - 1] + [word] == first + (words[..|words| - 1] + [word])
    ensures (first + words)[|first + words| - 1] == words[|words| - 1]
  {
  }

  /** A slug consists of wanted characters of the text and separators. */
  lemma {:induction false} SlugCharacters(s: string, n: nat, c: char, keep: char -> bool)
    requires n <= |s|
    ensures forall i :: 0 <= i < |Slug(s[..n], keep, [c])| ==>
      var x := Slug(s[..n], keep, [c])[i]; x == c || (keep(x) && x in s)
  {
    if n > 0 {
      SlugCharacters(s, n - 1, c, keep);
      SlugStep(s, n - 1, keep, [c]);
    }
  }

  // ---------------------------------------------------------------------------------------------
  // The texts that are their own slugs
  // ---------------------------------------------------------------------------------------------

  predicate DoubleAt(s: string, i: int, c: char) {
    0 <= i < |s| - 1 && s[i] == c && s[i + 1] == c
  }

  /** The character stands twice in a row somewhere. */
  predicate HasDouble(s: string, c: char) {
    exists i :: 0 <= i < |s| - 1 && DoubleAt(s, i, c)
  }

  lemma AppendHasNoDouble(s: string, x: char, c: char)
    requires !HasDouble(s, c) && (x != c || s == "" || s[|s| - 1] != c)
    ensures !HasDouble(s + [x], c)
  {
    forall i | 0 <= i < |s| ensures !DoubleAt(s + [x], i, c) {
      assert i < |s| - 1 ==> !DoubleAt(s, i, c);
    }
  }

  lemma SlugGrows(s: string, n: nat, c: char, keep: char -> bool)
    requires n < |s|
    ensures Slug(s[..n + 1], keep, [c]) ==
      var slug := Slug(s[..n], keep, [c]);
      if !keep(s[n]) then slug
      else if n > 0 && keep(s[n - 1]) then slug + [s[n]]
      else if slug == "" then [s[n]]
      else slug + [c] + [s[n]]
  {
    SlugStep(s, n, keep, [c]);
    SlugEnds(s[..n], keep, [c]);
  }

  /** A slug has no two separators in a row. */
  lemma {:induction false} SlugHasNoDouble(s: string, n: nat, c: char, keep: char -> bool)
    requires !keep(c) && n <= |s|
    ensures !HasDouble(Slug(s[..n], keep, [c]), c)
  {
    if n > 0 {
      var slug := Slug(s[..n - 1], keep, [c]);
      SlugHasNoDouble(s, n - 1, c, keep);
      SlugGrows(s, n - 1, c, keep);
      SlugEnds(s[..n - 1], keep, [c]);
      if keep(s[n - 1]) {
        AppendHasNoDouble(slug, s[n - 1], c);
        if slug != "" {
          AppendHasNoDouble(slug, c, c);
          AppendHasNoDouble(slug + [c], s[n - 1], c);
        }
      }
    }
  }

  /** Wanted characters with single separators between them. */
  predicate IsTidy(s: string, c: char, keep: char -> bool) {
    && (forall i :: 0 <= i < |s| ==> s[i] == c || keep(s[i]))
    && (s != "" ==> s[0] != c && s[|s| - 1] != c)
    && !HasDouble(s, c)
  }

  lemma SeparatorsAreSingle(s: string, n: nat, c: char, keep: char -> bool)
    requires IsTidy(s, c, keep) && n < |s| && s[n] == c
    ensures n > 0 && s[n - 1] != c
  {
    assert !DoubleAt(s, n - 1, c);
  }

  /** The slug of a beginning of a tidy text is that beginning, up to a separator at its end. */
  lemma {:induction false} TidyBeginning(s: string, n: nat, c: char, keep: char -> bool)
    requires !keep(c) && IsTidy(s, c, keep) && n <= |s|
    ensures Slug(s[..n], keep, [c]) == if n > 0 && s[n - 1] == c then s[..n - 1] else s[..n]
  {
    if n > 0 {
      TidyBeginning(s, n - 1, c, keep);
      SlugGrows(s, n - 1, c, keep);
      assert s[..n] == s[..n - 1] + [s[n - 1]];
      if s[n - 1] == c {
        SeparatorsAreSingle(s, n - 1, c, keep);
      } else if n > 1 && s[n - 2] == c {
        SeparatorsAreSingle(s, n - 2, c, keep);
        assert s[..n - 1] == s[..n - 2] + [c];
      }
    }
  }

  lemma TidyIsSlug(s: string, c: char, keep: char -> bool)
    requires !keep(c) && IsTidy(s, c, keep)
    ensures Slug(s, keep, [c]) == s
  {
    TidyBeginning(s, |s|, c, keep);
    assert s[..|s|] == s;
  }
}
