/** The character-level normalizer that turns an operator action text into a key. */
module ActionKey {
  import opened Text
  import opened Slugs

  /** The characters of a text, each replaced by its lower-case form, which `lower` gives and
      which may be more than one character. */
  function Lowered(s: string, lower: char -> string): string {
    if s == "" then "" else lower(s[0]) + Lowered(s[1..], lower)
  }

  const Wanted: char -> bool := c => IsAsciiAlphanumeric(c)

  /** The runs of letters and digits of the lower-cased text, joined by underscores. */
  function ActionKey(value: string, lower: char -> string): string {
    Slug(Lowered(Trim(value), lower), Wanted, ['_'])
  }

  method NormalizeActionKey(value: string, lower: char -> string) returns (normalized: string)
    ensures normalized == ActionKey(value, lower)
  {
    normalized := "";
    var lastWasSeparator := false;
    var text := Lowered(Trim(value), lower);
    assert text[..0] == "";
    for n := 0 to |text|
      invariant normalized == Slug(text[..n], Wanted, ['_']) + if lastWasSeparator then ['_'] else []
      invariant lastWasSeparator ==> Slug(text[..n], Wanted, ['_']) != ""
      invariant n > 0 && !Wanted(text[n - 1]) ==> lastWasSeparator || normalized == ""
      invariant n > 0 && Wanted(text[n - 1]) ==> !lastWasSeparator && normalized != ""
    {
      SlugStep(text, n, Wanted, ['_']);
      SlugEnds(text[..n], Wanted, ['_']);
      var ch := text[n];
      if IsAsciiAlphanumeric(ch) {
        normalized := normalized + [ch];
        lastWasSeparator := false;
      } else if !lastWasSeparator && normalized != "" {
        normalized := normalized + ['_'];
        lastWasSeparator := true;
      }
    }
    assert text[..|text|] == text;
    SlugEnds(text, Wanted, ['_']);
    ghost var slug := Slug(text, Wanted, ['_']);
    while normalized != "" && normalized[|normalized| - 1] == '_'
      invariant normalized == slug || normalized == slug + ['_']
      decreases |normalized|
    {
      normalized := normalized[..|normalized| - 1];
    }
  }

  /** What the source's lower-casing does to the characters a key is made of, and that it leaves
      no ASCII capital. */
  ghost predicate KeepsKeyCharacters(lower: char -> string) {
    && (forall c :: IsLowerAlphanumeric(c) || c == '_' ==> lower(c) == [c])
    && (forall c, d :: d in lower(c) ==> !('A' <= d <= 'Z'))
  }

  /** ASCII lower-casing is such a function. */
  lemma AsciiKeepsKeyCharacters()
    ensures KeepsKeyCharacters(c => [ToAsciiLower(c)])
  {
  }

  predicate IsKeyText(s: string) {
    && (forall i :: 0 <= i < |s| ==> '0' <= s[i] <= '9' || 'a' <= s[i] <= 'z' || s[i] == '_')
    && (s != "" ==> s[0] != '_' && s[|s| - 1] != '_')
    && !HasDouble(s, '_')
  }

  lemma {:induction false} LoweredHasNoCapital(s: string, lower: char -> string)
    requires KeepsKeyCharacters(lower)
    ensures forall d :: d in Lowered(s, lower) ==> !('A' <= d <= 'Z')
  {
    if s != "" {
      LoweredHasNoCapital(s[1..], lower);
      assert forall d :: d in Lowered(s, lower) ==> d in lower(s[0]) || d in Lowered(s[1..], lower);
    }
  }

  lemma {:induction false} LoweredKeyText(s: string, lower: char -> string)
    requires KeepsKeyCharacters(lower)
    requires forall i :: 0 <= i < |s| ==> IsLowerAlphanumeric(s[i]) || s[i] == '_'
    ensures Lowered(s, lower) == s
  {
    if s != "" {
      LoweredKeyText(s[1..], lower);
      assert [s[0]] + s[1..] == s;
    }
  }

  /** A key holds lower-case letters, digits and single inner underscores only. */
  lemma KeyShape(value: string, lower: char -> string)
    requires KeepsKeyCharacters(lower)
    ensures IsKeyText(ActionKey(value, lower))
  {
    var text := Lowered(Trim(value), lower);
    LoweredHasNoCapital(Trim(value), lower);
    SlugEnds(text, Wanted, ['_']);
    SlugCharacters(text, |text|, '_', Wanted);
    SlugHasNoDouble(text, |text|, '_', Wanted);
    assert text[..|text|] == text;
  }

  lemma KeyTextIsUnchanged(s: string, lower: char -> string)
    requires KeepsKeyCharacters(lower) && IsKeyText(s)
    ensures ActionKey(s, lower) == s
  {
    TrimTrimmed(s);
    LoweredKeyText(s, lower);
    TidyIsSlug(s, '_', Wanted);
  }

  /** The normalizer leaves exactly the key texts unchanged. */
  lemma KeysAreTheFixpoints(s: string, lower: char -> string)
    requires KeepsKeyCharacters(lower)
    ensures ActionKey(s, lower) == s <==> IsKeyText(s)
  {
    KeyShape(s, lower);
    if IsKeyText(s) {
      KeyTextIsUnchanged(s, lower);
    }
  }

  /** Normalizing a key again does not change it. */
  lemma KeyIsNormal(value: string, lower: char -> string)
    requires KeepsKeyCharacters(lower)
    ensures ActionKey(ActionKey(value, lower), lower) == ActionKey(value, lower)
  {
    KeyShape(value, lower);
    KeyTextIsUnchanged(ActionKey(value, lower), lower);
  }

  /** Every character is replaced by its lower-case form, and nothing else happens. */
  lemma {:induction false} LoweredAppends(s: string, c: char, lower: char -> string)
    ensures Lowered("", lower) == "" && Lowered(s + [c], lower) == Lowered(s, lower) + lower(c)
  {
    if s == "" {
      assert ("" + [c])[1..] == "";
    } else {
      LoweredAppends(s[1..], c, lower);
      assert (s + [c])[1..] == s[1..] + [c];
      ConcatAssociative(lower(s[0]), Lowered(s[1..], lower), lower(c));
    }
  }

  lemma {:induction false} LoweredWord(s: string, lowered: string)
    requires |lowered| == |s| && forall i :: 0 <= i < |s| ==> ToAsciiLower(s[i]) == lowered[i]
    ensures Lowered(s, c => [ToAsciiLower(c)]) == lowered
  {
    if s != "" {
      LoweredWord(s[1..], lowered[1..]);
      assert lowered == [lowered[0]] + lowered[1..];
    }
  }

  /** With ASCII lower-casing, a word of letters and digits keeps all of them, in lower case. */
  lemma AsciiWordIsLowered(s: string, lowered: string)
    requires |lowered| == |s|
    requires forall i :: 0 <= i < |s| ==>
      if 'A' <= s[i] <= 'Z' then lowered[i] as int == s[i] as int + 32
      else ('0' <= s[i] <= '9' || 'a' <= s[i] <= 'z') && lowered[i] == s[i]
    ensures ActionKey(s, c => [ToAsciiLower(c)]) == lowered
  {
    assert forall i :: 0 <= i < |s| ==> ToAsciiLower(s[i]) == lowered[i];
    TrimTrimmed(s);
    LoweredWord(s, lowered);
    assert forall i :: 0 <= i < |s| ==> Wanted(lowered[i]) && lowered[i] != '_';
    TidyIsSlug(lowered, '_', Wanted);
  }
}
